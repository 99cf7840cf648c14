/** The metadata store's uploads table: its statements, and how its aggregates
    agree. */
module Store {
  import opened Wrappers
  import opened Decimal
  import opened Sums

  datatype Upload = Upload(account: string, issuer: string, size: int, contentType: string, filename: string, at: int)

  datatype Owner = Owner(account: string, issuer: string)

  type Rows = map<string, Upload>

  function OwnerOfRow(u: Upload): Owner { Owner(u.account, u.issuer) }

  // SQL's predicate uploader_account = ? [AND uploader_issuer = ?].
  predicate InWipe(u: Upload, account: string, issuer: string)
  {
    u.account == account && (issuer != "" ==> u.issuer == issuer)
  }

  function Wiped(rows: Rows, account: string, issuer: string): set<string>
  {
    set k | k in rows && InWipe(rows[k], account, issuer)
  }

  // A ListUploadsQuery without its paging; empty fields do not filter.
  datatype Query = Query(account: string, issuer: string, contentType: string, search: string)

  // SQLite's LIKE, in the two ways it is used.
  datatype Collation = Collation(like: (string, string) -> bool, image: string -> bool)

  predicate Matches(c: Collation, q: Query, u: Upload)
  {
    && (q.account != "" ==> u.account == q.account)
    && (q.issuer != "" ==> u.issuer == q.issuer)
    && (q.contentType != "" ==> u.contentType == q.contentType)
    && (q.search != "" ==> c.like(u.filename, q.search))
  }

  function Matching(c: Collation, q: Query, rows: Rows): Rows
  {
    map k | k in rows && Matches(c, q, rows[k]) :: rows[k]
  }

  // ------------------------------------------------------------ what rows weigh

  function Size(): Upload -> int { (u: Upload) => u.size }

  function Count(): Upload -> int { (u: Upload) => 1 }

  function Only(w: Upload -> int, o: Owner): Upload -> int { (u: Upload) => if OwnerOfRow(u) == o then w(u) else 0 }

  function Image(c: Collation): Upload -> int { (u: Upload) => if c.image(u.contentType) then 1 else 0 }

  function Filtered(c: Collation, q: Query, w: Upload -> int): Upload -> int
  {
    (u: Upload) => if Matches(c, q, u) then w(u) else 0
  }

  lemma MatchingInsert(c: Collation, q: Query, rows: Rows, k: string, u: Upload)
    requires k !in rows
    ensures Matching(c, q, rows[k := u]) == if Matches(c, q, u) then Matching(c, q, rows)[k := u]
        else Matching(c, q, rows)
  {
  }

  // Filtering rows, or weighing the others as nothing.
  lemma {:induction false} FilteredSum(c: Collation, q: Query, rows: Rows, w: Upload -> int)
    ensures Sum(rows, Filtered(c, q, w)) == Sum(Matching(c, q, rows), w)
    decreases |rows|
  {
    if rows == map[] {
      assert Matching(c, q, rows) == map[];
    } else {
      var k :| k in rows;
      var rest, u := rows - {k}, rows[k];
      assert rest[k := u] == rows;
      FilteredSum(c, q, rest, w);
      MatchingInsert(c, q, rest, k, u);
      SumInsert(rest, Filtered(c, q, w), k, u);
      SumInsert(Matching(c, q, rest), w, k, u);
    }
  }

  ghost function Usage(rows: Rows, o: Owner): int { Sum(rows, Only(Size(), o)) }

  ghost function Files(rows: Rows, o: Owner): int { Sum(rows, Only(Count(), o)) }

  function Owners(rows: Rows): set<Owner> { set k | k in rows :: OwnerOfRow(rows[k]) }

  lemma OwnersInsert(rows: Rows, k: string, u: Upload)
    requires k !in rows
    ensures Owners(rows[k := u]) == Owners(rows) + {OwnerOfRow(u)}
  {
    var next := rows[k := u];
    forall o | o in Owners(rows) + {OwnerOfRow(u)} ensures o in Owners(next) {
      if o in Owners(rows) {
        var j :| j in rows && OwnerOfRow(rows[j]) == o;
        assert j in next && next[j] == rows[j];
      } else {
        assert k in next && next[k] == u;
      }
    }
  }

  predicate NonNegative(rows: Rows) { forall k :: k in rows ==> rows[k].size >= 0 }

  lemma UsageNonNegative(rows: Rows, o: Owner)
    requires NonNegative(rows)
    ensures Usage(rows, o) >= 0
  {
    SumNonNegative(rows, Only(Size(), o));
  }

  lemma {:induction false} CountIsSize(rows: Rows)
    ensures Sum(rows, Count()) == |rows|
    decreases |rows|
  {
    if rows != map[] {
      var k :| k in rows;
      SumRemove(rows, Count(), k);
      CountIsSize(rows - {k});
      assert |rows.Keys| == |(rows - {k}).Keys| + 1 by { assert rows.Keys == (rows - {k}).Keys + {k}; }
    }
  }

  // ---------------------------------------------------------------- statements

  datatype UploaderUsage = UploaderUsage(files: int, bytes: int)

  datatype UploadStats = UploadStats(totalFiles: int, totalSize: int, totalImages: int)

  class Table {
    var uploads: Rows

    constructor ()
      ensures uploads == map[]
    {
      uploads := map[];
    }

    // A plain INSERT on the primary key.
    method RecordUpload(key: string, u: Upload) returns (ok: bool)
      modifies this
      ensures ok <==> key !in old(uploads)
      ensures uploads == if ok then old(uploads)[key := u] else old(uploads)
    {
      ok := key !in uploads;
      if ok {
        uploads := uploads[key := u];
      }
    }

    method DeleteUpload(key: string, account: string, issuer: string) returns (found: bool)
      modifies this
      ensures found <==> key in old(uploads) && OwnerOfRow(old(uploads)[key]) == Owner(account, issuer)
      ensures uploads == if found then old(uploads) - {key} else old(uploads)
    {
      found := key in uploads && uploads[key].account == account && uploads[key].issuer == issuer;
      if found {
        uploads := uploads - {key};
      }
    }

    method DeleteUploadAny(key: string) returns (found: bool)
      modifies this
      ensures found <==> key in old(uploads)
      ensures uploads == old(uploads) - {key}
    {
      found := key in uploads;
      uploads := uploads - {key};
    }

    // The select and the delete of one transaction; None is the error for an
    // empty account.
    method WipeUploads(account: string, issuer: string) returns (keys: Option<seq<string>>)
      modifies this
      ensures keys.None? <==> account == ""
      ensures keys.None? ==> uploads == old(uploads)
      ensures keys.Some? ==> uploads == old(uploads) - Wiped(old(uploads), account, issuer)
      ensures keys.Some? ==>
                forall k :: k in keys.value <==>
                  k in old(uploads) && old(uploads)[k].account == account
                  && (issuer == "" || old(uploads)[k].issuer == issuer)
      ensures keys.Some? ==>
                forall k :: k in uploads <==>
                  k in old(uploads)
                  && (old(uploads)[k].account != account || (issuer != "" && old(uploads)[k].issuer != issuer))
      ensures forall k :: k in uploads ==> k in old(uploads) && uploads[k] == old(uploads)[k]
      ensures keys.Some? ==> forall i, j :: 0 <= i < j < |keys.value| ==> keys.value[i] != keys.value[j]
    {
      if account == "" {
        return None;
      }
      var found: seq<string> := [];
      var todo := uploads.Keys;
      while todo != {}
        invariant todo <= uploads.Keys
        invariant forall k :: k in found <==> k in uploads && k !in todo && InWipe(uploads[k], account, issuer)
        invariant forall i, j :: 0 <= i < j < |found| ==> found[i] != found[j]
        decreases todo
      {
        var k :| k in todo;
        if InWipe(uploads[k], account, issuer) {
          assert k !in found;
          found := found + [k];
        }
        todo := todo - {k};
      }
      uploads := map k | k in uploads && !InWipe(uploads[k], account, issuer) :: uploads[k];
      assert uploads == old(uploads) - Wiped(old(uploads), account, issuer);
      return Some(found);
    }

    // SELECT COALESCE(SUM(file_size), 0) for one owner; None is SQLite's integer
    // overflow error.
    method ReadUsage(account: string, issuer: string) returns (used: Option<int>)
      ensures used == UsageReading(uploads, Owner(account, issuer))
    {
      var total := SumRows(Only(Size(), Owner(account, issuer)));
      used := if total <= MAX_INT64 then Some(total) else None;
    }

    // A scan adding up a weight.
    method SumRows(w: Upload -> int) returns (total: int)
      ensures total == Sum(uploads, w)
    {
      total := 0;
      var done: Rows := map[];
      var todo := uploads.Keys;
      while todo != {}
        invariant todo <= uploads.Keys && done == uploads - todo
        invariant total == Sum(done, w)
        decreases todo
      {
        var k :| k in todo;
        SumInsert(done, w, k, uploads[k]);
        total := total + w(uploads[k]);
        done := done[k := uploads[k]];
        todo := todo - {k};
      }
      assert done == uploads;
    }

    // The total of ListUploads: SELECT COUNT(*) under the filter.
    method CountUploads(c: Collation, q: Query) returns (total: int)
      ensures total == |Matching(c, q, uploads)|
    {
      total := SumRows(Filtered(c, q, Count()));
      FilteredSum(c, q, uploads, Count());
      CountIsSize(Matching(c, q, uploads));
    }

    // One scan for the three aggregates of Stats; None on overflow of the sum.
    method Stats(c: Collation, q: Query) returns (stats: Option<UploadStats>)
      ensures stats.Some? <==> Sum(Matching(c, q, uploads), Size()) <= MAX_INT64
      ensures stats.Some? ==>
                && stats.value.totalFiles == |Matching(c, q, uploads)|
                && stats.value.totalSize == Sum(Matching(c, q, uploads), Size())
                && stats.value.totalImages == Sum(Matching(c, q, uploads), Image(c))
    {
      hide Sum;
      var files, size, images := 0, 0, 0;
      var done: Rows := map[];
      SumEmpty<string, Upload>(Filtered(c, q, Count()));
      SumEmpty<string, Upload>(Filtered(c, q, Size()));
      SumEmpty<string, Upload>(Filtered(c, q, Image(c)));
      var todo := uploads.Keys;
      while todo != {}
        invariant todo <= uploads.Keys && done == uploads - todo
        invariant files == Sum(done, Filtered(c, q, Count()))
        invariant size == Sum(done, Filtered(c, q, Size()))
        invariant images == Sum(done, Filtered(c, q, Image(c)))
        decreases todo
      {
        var k :| k in todo;
        var u := uploads[k];
        SumInsert(done, Filtered(c, q, Count()), k, u);
        SumInsert(done, Filtered(c, q, Size()), k, u);
        SumInsert(done, Filtered(c, q, Image(c)), k, u);
        if Matches(c, q, u) {
          files, size := files + 1, size + u.size;
          if c.image(u.contentType) {
            images := images + 1;
          }
        }
        done := done[k := u];
        todo := todo - {k};
      }
      assert done == uploads;
      FilteredSum(c, q, uploads, Count());
      FilteredSum(c, q, uploads, Size());
      FilteredSum(c, q, uploads, Image(c));
      CountIsSize(Matching(c, q, uploads));
      stats := if size <= MAX_INT64 then Some(UploadStats(files, size, images)) else None;
    }

    // GROUP BY owner: each uploader's file count and bytes. None is SQLite's
    // overflow error, which any one group's sum raises.
    method ListUploaders() returns (usage: Option<map<Owner, UploaderUsage>>, total: int)
      ensures total == |Owners(uploads)|
      ensures usage.Some? <==> forall o :: o in Owners(uploads) ==> Usage(uploads, o) <= MAX_INT64
      ensures usage.Some? ==>
                && usage.value.Keys == Owners(uploads)
                && forall o :: o in usage.value ==>
                     usage.value[o] == UploaderUsage(Files(uploads, o), Usage(uploads, o))
    {
      hide Reports, Owners;
      var groups: map<Owner, UploaderUsage> := map[];
      var done: Rows := map[];
      ReportsNothing();
      var todo := uploads.Keys;
      while todo != {}
        invariant todo <= uploads.Keys && done == uploads - todo
        invariant Reports(groups, done)
        decreases todo
      {
        var k :| k in todo;
        var u, o := uploads[k], OwnerOfRow(uploads[k]);
        ReportsInsert(groups, done, k, u);
        var before := if o in groups then groups[o] else UploaderUsage(0, 0);
        groups := groups[o := UploaderUsage(before.files + 1, before.bytes + u.size)];
        done := done[k := u];
        todo := todo - {k};
      }
      assert done == uploads;
      ReportsMean(groups, done);
      total := |groups.Keys|;
      usage := if exists o :: o in groups && groups[o].bytes > MAX_INT64 then None else Some(groups);
    }
  }

  ghost predicate Reports(usage: map<Owner, UploaderUsage>, rows: Rows)
  {
    && usage.Keys == Owners(rows)
    && (forall o :: o in usage ==> usage[o] == UploaderUsage(Files(rows, o), Usage(rows, o)))
  }

  lemma ReportsNothing()
    ensures Reports(map[], map[])
  {
  }

  lemma ReportsMean(usage: map<Owner, UploaderUsage>, rows: Rows)
    requires Reports(usage, rows)
    ensures usage.Keys == Owners(rows)
    ensures forall o :: o in usage ==> usage[o] == UploaderUsage(Files(rows, o), Usage(rows, o))
  {
  }

  lemma ReportsInsert(usage: map<Owner, UploaderUsage>, rows: Rows, k: string, u: Upload)
    requires k !in rows && Reports(usage, rows)
    ensures var o := OwnerOfRow(u);
            var before := if o in usage then usage[o] else UploaderUsage(0, 0);
            Reports(usage[o := UploaderUsage(before.files + 1, before.bytes + u.size)], rows[k := u])
  {
    hide Sum, Owners;
    var o := OwnerOfRow(u);
    var before := if o in usage then usage[o] else UploaderUsage(0, 0);
    var next := usage[o := UploaderUsage(before.files + 1, before.bytes + u.size)];
    OwnersInsert(rows, k, u);
    if o !in usage {
      Unowned(rows, Count(), o);
      Unowned(rows, Size(), o);
    }
    forall x | x in next
      ensures next[x] == UploaderUsage(Files(rows[k := u], x), Usage(rows[k := u], x))
    {
      SumInsert(rows, Only(Count(), x), k, u);
      SumInsert(rows, Only(Size(), x), k, u);
    }
  }

  lemma {:induction false} Unowned(rows: Rows, w: Upload -> int, o: Owner)
    requires o !in Owners(rows)
    ensures Sum(rows, Only(w, o)) == 0
    decreases |rows|
  {
    if rows != map[] {
      var k :| k in rows;
      SumRemove(rows, Only(w, o), k);
      assert OwnerOfRow(rows[k]) in Owners(rows);
      assert Owners(rows - {k}) <= Owners(rows);
      Unowned(rows - {k}, w, o);
    }
  }

  ghost function UsageReading(rows: Rows, o: Owner): Option<int>
  {
    if Usage(rows, o) <= MAX_INT64 then Some(Usage(rows, o)) else None
  }

  // ------------------------------------------------------- aggregates agree

  // The table of GROUP BY: one sum for each owner in xs.
  ghost function Grouped(rows: Rows, w: Upload -> int, xs: set<Owner>): map<Owner, int>
  {
    map o | o in xs :: Sum(rows, Only(w, o))
  }

  function Same(): int -> int { x => x }

  lemma GroupedInsert(rows: Rows, w: Upload -> int, xs: set<Owner>, k: string, u: Upload)
    requires k !in rows && OwnerOfRow(u) in xs
    ensures var o, g := OwnerOfRow(u), Grouped(rows, w, xs);
            Grouped(rows[k := u], w, xs) == g[o := g[o] + w(u)]
  {
    var o, g, g' := OwnerOfRow(u), Grouped(rows, w, xs), Grouped(rows[k := u], w, xs);
    forall x | x in xs ensures g'[x] == g[o := g[o] + w(u)][x] {
      SumInsert(rows, Only(w, x), k, u);
    }
  }

  // Sums by group add up to the ungrouped sum, for any set of groups that covers
  // the rows.
  lemma {:induction false} GroupsAddUp(rows: Rows, w: Upload -> int, xs: set<Owner>)
    requires Owners(rows) <= xs
    ensures Sum(Grouped(rows, w, xs), Same()) == Sum(rows, w)
    decreases |rows|
  {
    if rows == map[] {
      GroupsOfNothing(w, xs);
    } else {
      var k :| k in rows;
      var rest, u := rows - {k}, rows[k];
      assert rest[k := u] == rows;
      OwnersInsert(rest, k, u);
      GroupsAddUp(rest, w, xs);
      GroupsStep(rest, w, xs, k, u);
    }
  }

  lemma GroupsStep(rest: Rows, w: Upload -> int, xs: set<Owner>, k: string, u: Upload)
    requires k !in rest && OwnerOfRow(u) in xs
    requires Sum(Grouped(rest, w, xs), Same()) == Sum(rest, w)
    ensures Sum(Grouped(rest[k := u], w, xs), Same()) == Sum(rest[k := u], w)
  {
    hide Sum;
    var o, g := OwnerOfRow(u), Grouped(rest, w, xs);
    SumInsert(rest, w, k, u);
    GroupedInsert(rest, w, xs, k, u);
    SumUpdate(g, Same(), o, g[o] + w(u));
  }

  lemma GroupsOfNothing(w: Upload -> int, xs: set<Owner>)
    ensures Sum(Grouped(map[], w, xs), Same()) == 0
  {
    forall o | o in xs ensures Grouped(map[], w, xs)[o] == 0 {}
    AllZero(Grouped(map[], w, xs));
  }

  lemma {:induction false} AllZero<K>(m: map<K, int>)
    requires forall k :: k in m ==> m[k] == 0
    ensures Sum(m, Same()) == 0
    decreases |m|
  {
    if m != map[] {
      var k :| k in m;
      SumRemove(m, Same(), k);
      AllZero(m - {k});
    }
  }

  // Per-uploader files and bytes, as ListUploaders reports them, add up to the
  // unfiltered Stats.
  lemma UploadersAddUpToStats(c: Collation, rows: Rows)
    ensures Sum(Grouped(rows, Count(), Owners(rows)), Same()) == |Matching(c, Query("", "", "", ""), rows)|
    ensures Sum(Grouped(rows, Size(), Owners(rows)), Same()) == Sum(Matching(c, Query("", "", "", ""), rows), Size())
  {
    assert Matching(c, Query("", "", "", ""), rows) == rows;
    GroupsAddUp(rows, Count(), Owners(rows));
    GroupsAddUp(rows, Size(), Owners(rows));
    CountIsSize(rows);
  }

  // A caller's own listing and wipe touch exactly the caller's rows, although
  // filters drop empty fields: it takes a non-empty account and issuer, and with
  // either empty it is false.
  lemma OwnRowsExactly(c: Collation, account: string, issuer: string)
    ensures (forall rows: Rows :: Matching(c, Query(account, issuer, "", ""), rows).Keys
                == set k | k in rows && OwnerOfRow(rows[k]) == Owner(account, issuer))
            <==> account != "" && issuer != ""
    ensures account != "" ==>
            ((forall rows: Rows :: Wiped(rows, account, issuer)
                == set k | k in rows && OwnerOfRow(rows[k]) == Owner(account, issuer))
             <==> issuer != "")
  {
    var other := Upload(if account == "" then "x" else account, if issuer == "" then "x" else issuer, 0, "", "", 0);
    var rows: Rows := map["k" := other];
    if account == "" || issuer == "" {
      assert "k" in Matching(c, Query(account, issuer, "", ""), rows);
      assert "k" !in set k | k in rows && OwnerOfRow(rows[k]) == Owner(account, issuer);
      if account != "" { assert "k" in Wiped(rows, account, issuer); }
    }
  }

  // A query selects what each of its fields selects alone.
  lemma FiltersIntersect(c: Collation, account: string, issuer: string, contentType: string, search: string, rows: Rows)
    ensures Matching(c, Query(account, issuer, contentType, search), rows).Keys
            == Matching(c, Query(account, "", "", ""), rows).Keys * Matching(c, Query("", issuer, "", ""), rows).Keys
             * Matching(c, Query("", "", contentType, ""), rows).Keys
             * Matching(c, Query("", "", "", search), rows).Keys
    ensures Matching(c, Query("", "", "", ""), rows) == rows
    ensures account != "" ==>
              Matching(c, Query(account, "", "", ""), rows).Keys == set k | k in rows && rows[k].account == account
    ensures issuer != "" ==>
              Matching(c, Query("", issuer, "", ""), rows).Keys == set k | k in rows && rows[k].issuer == issuer
    ensures contentType != "" ==>
              Matching(c, Query("", "", contentType, ""), rows).Keys
              == set k | k in rows && rows[k].contentType == contentType
    ensures search != "" ==>
              Matching(c, Query("", "", "", search), rows).Keys == set k | k in rows && c.like(rows[k].filename, search)
  {
  }

  // A wipe conserves bytes and files: what the rows weighed before is what the
  // remaining and the removed rows weigh; scoped to an issuer it leaves nothing.
  lemma {:induction false} WipeConserves(rows: Rows, account: string, issuer: string, w: Upload -> int)
    ensures var gone := Wiped(rows, account, issuer);
            && Sum(rows, w) == Sum(rows - gone, w) + Sum(rows - (rows.Keys - gone), w)
            && (forall k :: k in rows && k !in gone ==> k in rows - gone && (rows - gone)[k] == rows[k])
            && (issuer != "" ==> Usage(rows - gone, Owner(account, issuer)) == 0)
  {
    var gone := Wiped(rows, account, issuer);
    SumSplit(rows, w, gone);
    if issuer != "" {
      Unowned(rows - gone, Size(), Owner(account, issuer));
    }
  }
}
