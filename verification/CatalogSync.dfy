/** Copying the package list into the market table: one row per package id, the last record of an id wins. */
module CatalogSync {
  import opened Basics
  import opened Text

  /** A package record after str(); an absent optional field is None. `Malformed` is a list entry that is not a
      record. */
  datatype Record =
    | Record(id: string, version: string, name: Option<string>, description: string, artifact: Option<string>,
             industry: Option<string>, commerce: Commerce, stored: string, sha256: string)
    | Malformed

  /** `mode` is stripped and lower-cased, and "free" when missing; `price` is the number that the first non-empty one
      of the price and amount fields spells, if it spells one. */
  datatype Commerce = Absent | Commerce(mode: string, price: Option<real>)

  datatype Row = Row(pkgId: string, authorId: Option<int>, version: string, name: string, description: string,
                     price: real, artifact: string, industry: string, stored: string, sha256: string, isPublic: bool)

  function Prefix(s: string, n: nat): string {
    if |s| <= n then s else s[..n]
  }

  /** `x or default`, where a missing and an empty text count alike. */
  function TextOr(x: Option<string>, default: string): string {
    if x.None? || x.value == [] then default else x.value
  }

  function StrippedOr(x: string, default: string): string {
    if Strip(x) == [] then default else Strip(x)
  }

  function CommercePrice(c: Commerce): real {
    if c.Absent? || c.mode == "free" || c.price.None? then 0.0 else c.price.value
  }

  predicate Valid(r: Record) {
    r.Record? && Strip(r.id) != [] && Strip(r.version) != []
  }

  function IdOf(r: Record): string
    requires r.Record?
  {
    Strip(r.id)
  }

  /** The row a record asks for. */
  function RowOf(r: Record, authorId: Option<int>): Row
    requires Valid(r)
  {
    var id := IdOf(r);
    Row(id, authorId, Strip(r.version), Prefix(StrippedOr(TextOr(r.name, id), id), 256),
        Prefix(r.description, 8000), CommercePrice(r.commerce), StrippedOr(TextOr(r.artifact, "mod"), "mod"),
        StrippedOr(TextOr(r.industry, "通用"), "通用"), Strip(r.stored), Strip(r.sha256), true)
  }

  /** A text shows something. */
  ghost predicate Shows(x: Option<string>) {
    x.Some? && !AllSpace(x.value)
  }

  /** At most n characters of a text, and all of a shorter one. */
  ghost predicate IsCut(s: string, whole: string, n: nat) {
    s <= whole && |s| == Min(n, |whole|)
  }

  /** The row's fields: the name is the record's, stripped and cut to 256 characters, and the id without one; the
      description is cut to 8000; a price is charged only by records that are not free and name a number; artifact and
      industry have their defaults. */
  lemma RowMeans(r: Record, authorId: Option<int>)
    requires Valid(r)
    ensures var row := RowOf(r, authorId);
            && row.pkgId == Strip(r.id) && row.version == Strip(r.version) && row.authorId == authorId
            && IsCut(row.name, if Shows(r.name) then Strip(r.name.value) else row.pkgId, 256) && row.name != []
            && IsCut(row.description, r.description, 8000)
            && (row.price != 0.0 ==>
                  r.commerce.Commerce? && r.commerce.mode != "free" && r.commerce.price == Some(row.price))
            && (r.commerce.Commerce? && r.commerce.mode != "free" && r.commerce.price.Some? ==>
                  row.price == r.commerce.price.value)
            && row.artifact == (if Shows(r.artifact) then Strip(r.artifact.value) else "mod")
            && row.industry == (if Shows(r.industry) then Strip(r.industry.value) else "通用")
            && row.stored == Strip(r.stored) && row.sha256 == Strip(r.sha256) && row.isPublic
  {
    var a, b := StripSlice(r.id);
    assert "mod"[0] == 'm' && "mod"[2] == 'd' && "通用"[0] == '通' && "通用"[1] == '用';
    hide Strip, StrippedOr, Prefix, CommercePrice, IsCut;
    StrippedDefault(r.name, Strip(r.id));
    StrippedDefault(r.artifact, "mod");
    StrippedDefault(r.industry, "通用");
    PrefixIsCut(StrippedOr(TextOr(r.name, Strip(r.id)), Strip(r.id)), 256);
    PrefixIsCut(r.description, 8000);
    PriceMeans(r.commerce);
    hide TextOr, Shows;
  }

  lemma PrefixIsCut(s: string, n: nat)
    ensures IsCut(Prefix(s, n), s, n)
    ensures s != [] && n > 0 ==> Prefix(s, n) != []
  {
  }

  lemma PriceMeans(c: Commerce)
    ensures CommercePrice(c) != 0.0 ==> c.Commerce? && c.mode != "free" && c.price == Some(CommercePrice(c))
    ensures c.Commerce? && c.mode != "free" && c.price.Some? ==> CommercePrice(c) == c.price.value
  {
  }

  lemma StrippedDefault(x: Option<string>, default: string)
    requires default != [] && Trimmed(default)
    ensures StrippedOr(TextOr(x, default), default) == if Shows(x) then Strip(x.value) else default
    ensures Strip(default) == default
    ensures StrippedOr(TextOr(x, default), default) != []
  {
    StripEnds(default);
    if x.Some? {
      StripEnds(x.value);
    }
  }

  /** Index of the first row of a package, or the number of rows. */
  function Find(rows: seq<Row>, id: string): (i: nat)
    ensures i <= |rows|
    ensures i < |rows| ==> rows[i].pkgId == id
    ensures forall j :: 0 <= j < i ==> rows[j].pkgId != id
  {
    if |rows| == 0 || rows[0].pkgId == id then 0 else 1 + Find(rows[1..], id)
  }

  predicate Has(rows: seq<Row>, id: string) {
    Find(rows, id) < |rows|
  }

  ghost predicate OneRowPerId(rows: seq<Row>) {
    forall i, j :: 0 <= i < j < |rows| ==> rows[i].pkgId != rows[j].pkgId
  }

  /** An update without an author keeps the row's author. */
  function Upserted(rows: seq<Row>, r: Record, authorId: Option<int>): seq<Row>
    requires Valid(r)
  {
    var i := Find(rows, IdOf(r));
    if i == |rows| then rows + [RowOf(r, authorId)]
    else rows[i := RowOf(r, if authorId.Some? then authorId else rows[i].authorId)]
  }

  datatype Report = Report(inserted: nat, skipped: nat)

  class Market {
    var rows: seq<Row>

    constructor (rows: seq<Row>)
      ensures this.rows == rows
    {
      this.rows := rows;
    }

    method FirstRow(id: string) returns (i: nat)
      ensures i == Find(rows, id)
    {
      i := 0;
      while i < |rows| && rows[i].pkgId != id
        invariant i <= |rows|
        invariant Find(rows, id) == i + Find(rows[i..], id)
      {
        assert rows[i..][1..] == rows[i + 1..];
        i := i + 1;
      }
    }

    method UpsertCatalogItem(r: Record, authorId: Option<int>)
      modifies this
      ensures rows == if Valid(r) then Upserted(old(rows), r, authorId) else old(rows)
    {
      if r.Malformed? {
        return;
      }
      var id, version := Strip(r.id), Strip(r.version);
      if id == [] || version == [] {
        return;
      }
      var i := FirstRow(id);
      var row := Row(id, authorId, "", "", "", 0.0, "", "", "", "", false);
      if i < |rows| {
        row := rows[i];
        if authorId.Some? {
          row := row.(authorId := authorId);
        }
      }
      row := row.(version := version, name := Prefix(StrippedOr(TextOr(r.name, id), id), 256));
      row := row.(description := Prefix(r.description, 8000), price := CommercePrice(r.commerce));
      row := row.(artifact := StrippedOr(TextOr(r.artifact, "mod"), "mod"));
      row := row.(industry := StrippedOr(TextOr(r.industry, "通用"), "通用"));
      row := row.(stored := Strip(r.stored), sha256 := Strip(r.sha256), isPublic := true);
      if i < |rows| {
        rows := rows[i := row];
      } else {
        rows := rows + [row];
      }
    }

    /** The whole synchronisation, stated by what each package's row is afterwards. */
    method SyncPackages(packages: seq<Record>, adminId: int) returns (report: Report)
      requires OneRowPerId(rows)
      modifies this
      ensures Synced(old(rows), packages, Some(adminId), rows)
      ensures OneRowPerId(rows)
      ensures report.inserted + report.skipped == ValidCount(packages)
      ensures report.inserted == |NewIds(old(rows), packages)| == |rows| - |old(rows)|
    {
      var inserted, skipped: nat := 0, 0;
      NoPackages(rows, Some(adminId));
      for i := 0 to |packages|
        invariant Halfway(old(rows), packages[..i], Some(adminId), rows, inserted, skipped)
      {
        var r := packages[i];
        assert packages[..i + 1] == packages[..i] + [r];
        NextPackage(old(rows), packages[..i], Some(adminId), rows, inserted, skipped, r);
        if Valid(r) {
          var at := FirstRow(Strip(r.id));
          var hadRow := at < |rows|;
          UpsertCatalogItem(r, Some(adminId));
          if hadRow {
            skipped := skipped + 1;
          } else {
            inserted := inserted + 1;
          }
        }
      }
      assert packages[..|packages|] == packages;
      report := Report(inserted, skipped);
    }
  }

  /** The table and the two counters after some of the packages. */
  ghost predicate Halfway(before: seq<Row>, packages: seq<Record>, authorId: Option<int>, rows: seq<Row>,
                          inserted: nat, skipped: nat)
  {
    && Synced(before, packages, authorId, rows) && OneRowPerId(rows)
    && inserted + skipped == ValidCount(packages)
    && inserted == |NewIds(before, packages)| == |rows| - |before|
  }

  lemma NextPackage(before: seq<Row>, packages: seq<Record>, authorId: Option<int>, rows: seq<Row>,
                    inserted: nat, skipped: nat, r: Record)
    requires Halfway(before, packages, authorId, rows, inserted, skipped) && authorId.Some?
    ensures !Valid(r) ==> Halfway(before, packages + [r], authorId, rows, inserted, skipped)
    ensures Valid(r) ==>
              var had := Has(rows, IdOf(r));
              Halfway(before, packages + [r], authorId, Upserted(rows, r, authorId),
                      if had then inserted else inserted + 1, if had then skipped + 1 else skipped)
  {
    assert (packages + [r])[..|packages|] == packages;
    if Valid(r) {
      OneMorePackage(before, packages, authorId, rows, r);
    } else {
      SkippedPackage(before, packages, authorId, rows, r);
    }
  }

  // ----- the table after a synchronisation, without a loop -----

  function ValidCount(packages: seq<Record>): nat {
    if |packages| == 0 then 0
    else ValidCount(packages[..|packages| - 1]) + if Valid(packages[|packages| - 1]) then 1 else 0
  }

  predicate Names(packages: seq<Record>, id: string) {
    && |packages| > 0
    && var last := packages[|packages| - 1];
       (Valid(last) && IdOf(last) == id) || Names(packages[..|packages| - 1], id)
  }

  /** The last valid record of a package. */
  function LastOf(packages: seq<Record>, id: string): (r: Record)
    requires Names(packages, id)
    ensures Valid(r) && IdOf(r) == id
  {
    var last := packages[|packages| - 1];
    if Valid(last) && IdOf(last) == id then last else LastOf(packages[..|packages| - 1], id)
  }

  /** The count is of the records with an id and a version that show something. */
  lemma {:induction false} ValidCounts(packages: seq<Record>)
    ensures ValidCount(packages) == |set i | 0 <= i < |packages| && HasIdAndVersion(packages[i])|
  {
    hide Valid, HasIdAndVersion;
    if |packages| > 0 {
      var n := |packages| - 1;
      var front, last := packages[..n], packages[n];
      ValidCounts(front);
      ValidMeans(last);
      var before := set i | 0 <= i < |front| && HasIdAndVersion(front[i]);
      assert (set i | 0 <= i < |packages| && HasIdAndVersion(packages[i])) ==
             if HasIdAndVersion(last) then before + {n} else before;
    }
  }

  ghost predicate HasIdAndVersion(r: Record) {
    r.Record? && !AllSpace(r.id) && !AllSpace(r.version)
  }

  lemma ValidMeans(r: Record)
    ensures Valid(r) <==> HasIdAndVersion(r)
  {
    if r.Record? {
      StripEnds(r.id);
      StripEnds(r.version);
    }
  }

  /** The record that decides a package's row is the last valid one with its id. */
  lemma {:induction false} LastOfMeans(packages: seq<Record>, id: string, i: nat)
    requires i < |packages| && Valid(packages[i]) && Strip(packages[i].id) == id
    requires forall k :: i < k < |packages| && Valid(packages[k]) ==> Strip(packages[k].id) != id
    ensures Names(packages, id) && LastOf(packages, id) == packages[i]
    decreases |packages|
  {
    hide Strip;
    if i < |packages| - 1 {
      LastOfMeans(packages[..|packages| - 1], id, i);
    }
  }

  /** The ids of the records that had no row before. */
  function NewIds(rows: seq<Row>, packages: seq<Record>): set<string> {
    if |packages| == 0 then {}
    else
      var last := packages[|packages| - 1];
      NewIds(rows, packages[..|packages| - 1]) + if Valid(last) && !Has(rows, IdOf(last)) then {IdOf(last)} else {}
  }

  lemma {:induction false} NewIdMeans(before: seq<Row>, packages: seq<Record>, id: string)
    ensures id in NewIds(before, packages) <==> Names(packages, id) && !Has(before, id)
  {
    if |packages| > 0 {
      NewIdMeans(before, packages[..|packages| - 1], id);
    }
  }

  /** A named package has the row of its last record; a row no record names is an old one, untouched. */
  ghost predicate RowRight(before: seq<Row>, packages: seq<Record>, authorId: Option<int>, after: seq<Row>, i: nat)
    requires i < |after|
  {
    if Names(packages, after[i].pkgId) then after[i] == RowOf(LastOf(packages, after[i].pkgId), authorId)
    else i < |before| && after[i] == before[i]
  }

  /** Old rows keep their places, every row is right, new rows are for ids without a row, and every named id has one. */
  ghost predicate Synced(before: seq<Row>, packages: seq<Record>, authorId: Option<int>, after: seq<Row>) {
    && |before| <= |after|
    && (forall i :: 0 <= i < |before| ==> after[i].pkgId == before[i].pkgId)
    && (forall i :: 0 <= i < |after| ==> RowRight(before, packages, authorId, after, i))
    && (forall i :: |before| <= i < |after| ==> !Has(before, after[i].pkgId))
    && (forall id :: Names(packages, id) ==> Has(after, id))
  }

  lemma NoPackages(rows: seq<Row>, authorId: Option<int>)
    ensures Synced(rows, [], authorId, rows) && NewIds(rows, []) == {}
  {
  }

  lemma NamesSnoc(packages: seq<Record>, r: Record, id: string)
    ensures Names(packages + [r], id) <==> Names(packages, id) || (Valid(r) && IdOf(r) == id)
    ensures Names(packages + [r], id) ==>
              LastOf(packages + [r], id) == if Valid(r) && IdOf(r) == id then r else LastOf(packages, id)
  {
    assert (packages + [r])[..|packages|] == packages;
  }

  lemma SkippedPackage(before: seq<Row>, packages: seq<Record>, authorId: Option<int>, rows: seq<Row>, r: Record)
    requires Synced(before, packages, authorId, rows) && !Valid(r)
    ensures Synced(before, packages + [r], authorId, rows)
    ensures NewIds(before, packages + [r]) == NewIds(before, packages)
  {
    forall i | 0 <= i < |rows| ensures RowRight(before, packages + [r], authorId, rows, i) {
      assert RowRight(before, packages, authorId, rows, i);
      NamesSnoc(packages, r, rows[i].pkgId);
    }
    forall id | Names(packages + [r], id) ensures Has(rows, id) {
      NamesSnoc(packages, r, id);
    }
    assert (packages + [r])[..|packages|] == packages;
  }

  lemma FindIs(rows: seq<Row>, id: string, i: nat)
    requires i < |rows| && rows[i].pkgId == id
    ensures Has(rows, id)
    ensures OneRowPerId(rows) ==> Find(rows, id) == i
  {
    var j := Find(rows, id);
    assert j <= i && rows[j].pkgId == rows[i].pkgId;
  }

  /** A record of a package without a row appends one. */
  lemma InsertedPackage(before: seq<Row>, packages: seq<Record>, authorId: Option<int>, rows: seq<Row>, r: Record)
    requires Synced(before, packages, authorId, rows) && Valid(r) && OneRowPerId(rows) && !Has(rows, IdOf(r))
    ensures var after := rows + [RowOf(r, authorId)];
            && Synced(before, packages + [r], authorId, after) && OneRowPerId(after)
            && !Has(before, IdOf(r)) && !Names(packages, IdOf(r))
  {
    var id, after, n := IdOf(r), rows + [RowOf(r, authorId)], |rows|;
    if Has(before, id) {
      FindIs(rows, id, Find(before, id));
    }
    forall i | 0 <= i < |after| ensures RowRight(before, packages + [r], authorId, after, i) {
      NamesSnoc(packages, r, after[i].pkgId);
      if i < n {
        assert RowRight(before, packages, authorId, rows, i);
        assert rows[i].pkgId != id;
      }
    }
    forall x | Names(packages + [r], x) ensures Has(after, x) {
      NamesSnoc(packages, r, x);
      FindIs(after, x, if x == id then n else Find(rows, x));
    }
    forall i, j | 0 <= i < j < |after| ensures after[i].pkgId != after[j].pkgId {
      if j < n {
        assert rows[i].pkgId != rows[j].pkgId;
      }
    }
  }

  /** A record of a package with a row replaces it, at its place. */
  lemma ReplacedPackage(before: seq<Row>, packages: seq<Record>, authorId: Option<int>, rows: seq<Row>, r: Record)
    requires Synced(before, packages, authorId, rows) && Valid(r) && OneRowPerId(rows) && Has(rows, IdOf(r))
    ensures var after := rows[Find(rows, IdOf(r)) := RowOf(r, authorId)];
            && Synced(before, packages + [r], authorId, after) && OneRowPerId(after)
            && (Has(before, IdOf(r)) || Names(packages, IdOf(r)))
  {
    var id, at := IdOf(r), Find(rows, IdOf(r));
    var after := rows[at := RowOf(r, authorId)];
    assert RowRight(before, packages, authorId, rows, at);
    if at < |before| {
      FindIs(before, id, at);
    }
    forall i | 0 <= i < |after| ensures RowRight(before, packages + [r], authorId, after, i) {
      NamesSnoc(packages, r, after[i].pkgId);
      assert RowRight(before, packages, authorId, rows, i);
      if i != at && rows[i].pkgId == id {
        FindIs(rows, id, i);
      }
    }
    forall x | Names(packages + [r], x) ensures Has(after, x) {
      NamesSnoc(packages, r, x);
      FindIs(after, x, Find(rows, x));
    }
    forall i, j | 0 <= i < j < |after| ensures after[i].pkgId != after[j].pkgId {
      assert rows[i].pkgId != rows[j].pkgId;
    }
  }

  lemma OneMorePackage(before: seq<Row>, packages: seq<Record>, authorId: Option<int>, rows: seq<Row>, r: Record)
    requires Synced(before, packages, authorId, rows) && Valid(r) && OneRowPerId(rows) && authorId.Some?
    ensures var after := Upserted(rows, r, authorId);
            && Synced(before, packages + [r], authorId, after) && OneRowPerId(after)
            && |NewIds(before, packages + [r])| == |NewIds(before, packages)| + |after| - |rows|
  {
    assert (packages + [r])[..|packages|] == packages;
    NewIdMeans(before, packages, IdOf(r));
    if Has(rows, IdOf(r)) {
      ReplacedPackage(before, packages, authorId, rows, r);
      assert NewIds(before, packages + [r]) == NewIds(before, packages);
    } else {
      InsertedPackage(before, packages, authorId, rows, r);
    }
  }

  /** The package has a row, and it is the one its last record asks for. */
  ghost predicate UpToDate(rows: seq<Row>, packages: seq<Record>, authorId: Option<int>, id: string)
    requires Names(packages, id)
  {
    && Has(rows, id)
    && forall i :: 0 <= i < |rows| && rows[i].pkgId == id ==> rows[i] == RowOf(LastOf(packages, id), authorId)
  }

  lemma UpToDateRow(before: seq<Row>, packages: seq<Record>, authorId: Option<int>, after: seq<Row>, i: nat)
    requires Synced(before, packages, authorId, after) && i < |after|
    requires forall id :: Names(packages, id) ==> UpToDate(before, packages, authorId, id)
    ensures i < |before| && after[i] == before[i]
  {
    assert RowRight(before, packages, authorId, after, i);
    if Names(packages, after[i].pkgId) {
      assert UpToDate(before, packages, authorId, after[i].pkgId);
    }
  }

  /** A synchronisation leaves the table alone exactly if every named package has its last record's row already: rows of
      present packages are updated, not only missing ones inserted. */
  lemma SyncChangesNothingIff(before: seq<Row>, packages: seq<Record>, authorId: Option<int>, after: seq<Row>)
    requires Synced(before, packages, authorId, after)
    ensures after == before <==> forall id :: Names(packages, id) ==> UpToDate(before, packages, authorId, id)
  {
    if after == before {
      forall id | Names(packages, id) ensures UpToDate(before, packages, authorId, id) {
        forall i | 0 <= i < |before| && before[i].pkgId == id
          ensures before[i] == RowOf(LastOf(packages, id), authorId)
        {
          assert RowRight(before, packages, authorId, after, i);
        }
      }
    }
    if forall id :: Names(packages, id) ==> UpToDate(before, packages, authorId, id) {
      forall i | 0 <= i < |after| ensures i < |before| && after[i] == before[i] {
        UpToDateRow(before, packages, authorId, after, i);
      }
      if |after| > 0 {
        UpToDateRow(before, packages, authorId, after, |after| - 1);
      }
    }
  }

  /** A second synchronisation of the same packages by the same administrator inserts nothing and changes no row. */
  lemma SecondSyncChangesNothing(before: seq<Row>, packages: seq<Record>, authorId: Option<int>,
                                 once: seq<Row>, twice: seq<Row>)
    requires Synced(before, packages, authorId, once) && Synced(once, packages, authorId, twice)
    ensures twice == once && NewIds(once, packages) == {}
  {
    forall i | 0 <= i < |twice| ensures i < |once| && twice[i] == once[i] {
      assert RowRight(once, packages, authorId, twice, i);
      if i < |once| {
        assert RowRight(before, packages, authorId, once, i);
      }
    }
    if |twice| > 0 {
      assert RowRight(once, packages, authorId, twice, |twice| - 1);
    }
    forall id ensures id !in NewIds(once, packages) {
      NewIdMeans(once, packages, id);
    }
  }
}
