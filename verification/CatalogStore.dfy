/** The package store: a list of records keyed by (id, version), with drafts promoted to free stable versions. */
module CatalogStore {
  import opened Basics
  import opened Text
  import opened Decimal

  /** `rest` stands for the fields no operation looks at; `createdAt` is dropped by promotion. */
  datatype Record = Record(id: string, version: string, channel: string, createdAt: Option<string>, rest: string)

  datatype StoreError = FieldsRequired | NotADraft | NoSuchVersion

  predicate HasKey(r: Record, id: string, version: string) {
    r.id == id && r.version == version
  }

  ghost predicate UniqueKeys(packages: seq<Record>) {
    forall i, j :: 0 <= i < j < |packages| ==> !HasKey(packages[i], packages[j].id, packages[j].version)
  }

  ghost predicate Stored(packages: seq<Record>, id: string, version: string) {
    exists i :: 0 <= i < |packages| && HasKey(packages[i], id, version)
  }

  const DRAFT := "draft-"

  predicate IsDraft(version: string) {
    DRAFT <= version
  }

  /** The part of a draft's version behind the prefix, or 1.0.0. */
  function BaseTarget(version: string): string
    requires IsDraft(version)
  {
    var base := Strip(version[|DRAFT|..]);
    if base == [] then "1.0.0" else base
  }

  /** The k-th version number to try: the base, then base+2, base+3, ... */
  function Candidate(base: string, k: nat): string
    requires k > 0
  {
    if k == 1 then base else base + "+" + Digits(k)
  }

  lemma CandidatesDiffer(base: string, j: nat, k: nat)
    requires 0 < j && 0 < k && Candidate(base, j) == Candidate(base, k)
    ensures j == k
  {
    var n := |base|;
    DigitsAreDigits(j);
    DigitsAreDigits(k);
    assert j > 1 ==> Candidate(base, j)[n + 1..] == Digits(j);
    assert k > 1 ==> Candidate(base, k)[n + 1..] == Digits(k);
    if j > 1 && k > 1 {
      DigitsInjective(j, k);
    }
  }

  /** A stripped base gives stripped candidates, so get_package's own strip leaves them alone. */
  lemma CandidateIsTrimmed(base: string, k: nat)
    requires k > 0 && base != [] && Trimmed(base)
    ensures Strip(Candidate(base, k)) == Candidate(base, k)
  {
    var c := Candidate(base, k);
    DigitsAreDigits(k);
    if k > 1 {
      assert c[0] == base[0] && c[|c| - 1] == Digits(k)[|Digits(k)| - 1];
      assert IsDigit(c[|c| - 1]);
    }
    StripEnds(c);
  }

  lemma BaseIsTrimmed(version: string)
    requires IsDraft(version)
    ensures BaseTarget(version) != [] && Trimmed(BaseTarget(version))
  {
    var a, b := StripSlice(version[|DRAFT|..]);
    assert "1.0.0"[0] == '1' && "1.0.0"[4] == '0';
  }

  /** Promotion first tries what stands behind the prefix without outer whitespace, or 1.0.0 if nothing does; then the
      same with +2, +3 and so on behind it. */
  lemma VersionsTried(version: string, rest: string, k: nat)
    requires version == "draft-" + rest && k > 0
    ensures IsDraft(version)
    ensures var base := BaseTarget(version);
            && (if exists c :: c in rest && !IsSpace(c) then
                  exists a, b :: 0 <= a < b <= |rest| && base == rest[a..b] &&
                                 AllSpace(rest[..a]) && AllSpace(rest[b..])
                else base == "1.0.0")
            && Trimmed(base)
            && if k == 1 then Candidate(base, k) == base
               else exists number :: IsNumeral(number) && Value(number) == k &&
                                     Candidate(base, k) == base + "+" + number
  {
    assert version[|DRAFT|..] == rest;
    BaseIsTrimmed(version);
    DigitsAreNumerals(k);
    ValueOfDigits(k);
    var a, b := StripSlice(rest);
    assert AllSpace(rest[..a]) && AllSpace(rest[b..]);
    if c :| c in rest && !IsSpace(c) {
      var i :| 0 <= i < |rest| && rest[i] == c;
      assert a <= i < b;
    } else {
      StripEnds(rest);
    }
  }

  /** Records of a list that a removal takes out. */
  function Kept(packages: seq<Record>, id: string, version: Option<string>): seq<Record> {
    if |packages| == 0 then []
    else
      var front, r := Kept(packages[..|packages| - 1], id, version), packages[|packages| - 1];
      if Strip(r.id) == id && (version.None? || Strip(r.version) == version.value) then front else front + [r]
  }

  /** The list without the records of one key, compared as they are stored. */
  function Without(packages: seq<Record>, id: string, version: string): seq<Record> {
    if |packages| == 0 then []
    else
      var front, r := Without(packages[..|packages| - 1], id, version), packages[|packages| - 1];
      if HasKey(r, id, version) then front else front + [r]
  }

  class Store {
    var packages: seq<Record>

    constructor (packages: seq<Record>)
      ensures this.packages == packages
    {
      this.packages := packages;
    }

    method GetPackage(id: string, version: string) returns (r: Option<Record>)
      ensures r.Some? ==> r.value in packages && HasKey(r.value, Strip(id), Strip(version))
      ensures r.Some? <==> Stored(packages, Strip(id), Strip(version))
    {
      var pid, ver := Strip(id), Strip(version);
      for i := 0 to |packages|
        invariant forall j :: 0 <= j < i ==> !HasKey(packages[j], pid, ver)
      {
        if packages[i].id == pid && packages[i].version == ver {
          return Some(packages[i]);
        }
      }
      return None;
    }

    /** The search for a free version ends because every number tried and taken is a stored version not met before. */
    method FreeVersion(pid: string, base: string) returns (target: string)
      requires Strip(pid) == pid && base != [] && Trimmed(base)
      ensures exists k: nat :: IsFirstFree(packages, pid, base, k, target)
    {
      hide Strip, Trimmed;
      var bump: nat := 1;
      target := base;
      CandidateIsTrimmed(base, 1);
      ghost var tried: set<string> := {};
      var found := GetPackage(pid, target);
      while found.Some?
        invariant bump >= 1 && target == Candidate(base, bump)
        invariant found.Some? <==> Stored(packages, pid, target)
        invariant forall k: nat :: 1 <= k < bump ==> Stored(packages, pid, Candidate(base, k))
        invariant forall v :: v in tried <==> exists k: nat :: 1 <= k < bump && v == Candidate(base, k)
        decreases Versions(packages, pid) - tried
      {
        ghost var before := tried;
        tried := tried + {target};
        TargetIsNew(base, bump, before, target);
        StoredIsVersion(packages, pid, target);
        bump := bump + 1;
        target := base + "+" + Digits(bump);
        CandidateIsTrimmed(base, bump);
        found := GetPackage(pid, target);
      }
      assert IsFirstFree(packages, pid, base, bump, target);
    }

    method PromoteDraftToStable(id: string, fromVersion: string) returns (r: Result<Record, StoreError>)
      modifies this
      ensures var pid, src := Strip(id), Strip(fromVersion);
              && (r.Ok? <==> pid != [] && IsDraft(src) && Stored(old(packages), pid, src))
              && (r.Err? ==> packages == old(packages) &&
                             r.error == if pid == [] || src == [] then FieldsRequired
                                        else if !IsDraft(src) then NotADraft else NoSuchVersion)
              && (r.Ok? ==>
                    && packages == old(packages) + [r.value]
                    && (exists draft :: draft in old(packages) && HasKey(draft, pid, src) &&
                                        r.value == Record(pid, r.value.version, "stable", None, draft.rest))
                    && (exists k: nat ::
                          && IsFirstFree(old(packages), pid, BaseTarget(src), k, r.value.version)
                          && Changes(old(packages), Promoted(r.value, BaseTarget(src), k), packages)))
    {
      hide Strip, Trimmed, IsFirstFree, BaseTarget;
      var pid, src := Strip(id), Strip(fromVersion);
      if pid == [] || src == [] {
        return Err(FieldsRequired);
      }
      if !IsDraft(src) {
        return Err(NotADraft);
      }
      Restrip(id);
      Restrip(fromVersion);
      var draft := GetPackage(pid, src);
      if draft.None? {
        return Err(NoSuchVersion);
      }
      var base := BaseTarget(src);
      BaseIsTrimmed(src);
      var target := FreeVersion(pid, base);
      var rec := draft.value.(version := target);
      rec := rec.(channel := "stable");
      rec := rec.(createdAt := None);
      packages := packages + [rec];
      return Ok(rec);
    }

    method AppendPackage(record: Record) returns (r: Result<Record, StoreError>)
      modifies this
      ensures var pid, ver := Strip(record.id), Strip(record.version);
              && (r.Err? <==> pid == [] || ver == [])
              && (r.Err? ==> r.error == FieldsRequired && packages == old(packages))
              && (r.Ok? ==> r.value == record && packages == Without(old(packages), pid, ver) + [record])
      ensures r.Ok? ==> Changes(old(packages), Appended(record), packages)
    {
      var pid, ver := Strip(record.id), Strip(record.version);
      if pid == [] || ver == [] {
        return Err(FieldsRequired);
      }
      var pkgs := [];
      for i := 0 to |packages|
        invariant pkgs == Without(packages[..i], pid, ver)
      {
        assert packages[..i + 1][..i] == packages[..i];
        if !(packages[i].id == pid && packages[i].version == ver) {
          pkgs := pkgs + [packages[i]];
        }
      }
      assert packages[..|packages|] == packages;
      packages := pkgs + [record];
      return Ok(record);
    }

    /** A version of None removes every version of the package. */
    method RemovePackage(pkgId: string, version: Option<string>) returns (removed: nat)
      modifies this
      ensures var pid := Strip(pkgId);
              var ver := if version.None? then None else Some(Strip(version.value));
              && packages == (if pid == [] then old(packages) else Kept(old(packages), pid, ver))
              && (pid != [] ==> Changes(old(packages), Removed(pid, ver), packages))
      ensures removed == |old(packages)| - |packages|
    {
      var pid := Strip(pkgId);
      if pid == [] {
        return 0;
      }
      var ver := if version.None? then None else Some(Strip(version.value));
      removed := 0;
      var rows := [];
      for i := 0 to |packages|
        invariant rows == Kept(packages[..i], pid, ver)
        invariant removed + |rows| == i
      {
        assert packages[..i + 1][..i] == packages[..i];
        var r := packages[i];
        if Strip(r.id) != pid || (ver.Some? && Strip(r.version) != ver.value) {
          rows := rows + [r];
        } else {
          removed := removed + 1;
        }
      }
      assert packages[..|packages|] == packages;
      packages := rows;
    }
  }

  /** Candidate k is free and all before it are taken. */
  ghost predicate IsFirstFree(packages: seq<Record>, id: string, base: string, k: nat, version: string) {
    && k > 0 && version == Candidate(base, k)
    && !Stored(packages, id, version)
    && forall j: nat :: 1 <= j < k ==> Stored(packages, id, Candidate(base, j))
  }

  ghost function Versions(packages: seq<Record>, id: string): set<string> {
    set i | 0 <= i < |packages| && packages[i].id == id :: packages[i].version
  }

  lemma StoredIsVersion(packages: seq<Record>, id: string, version: string)
    requires Stored(packages, id, version)
    ensures version in Versions(packages, id)
  {
  }

  lemma TargetIsNew(base: string, bump: nat, tried: set<string>, target: string)
    requires bump > 0 && target == Candidate(base, bump)
    requires forall v :: v in tried <==> exists k: nat :: 1 <= k < bump && v == Candidate(base, k)
    ensures target !in tried
    ensures forall v :: v in tried + {target} <==> exists k: nat :: 1 <= k < bump + 1 && v == Candidate(base, k)
  {
    if target in tried {
      var k: nat :| 1 <= k < bump && target == Candidate(base, k);
      CandidatesDiffer(base, k, bump);
    }
  }

  lemma Restrip(s: string)
    ensures Strip(Strip(s)) == Strip(s)
  {
    var a, b := StripSlice(s);
    StripEnds(Strip(s));
  }

  // ----- what the operations keep -----

  /** Promotion keeps the keys unique: the new version is one that was free. */
  lemma PromoteKeepsUnique(packages: seq<Record>, rec: Record, base: string, k: nat)
    requires UniqueKeys(packages) && IsFirstFree(packages, rec.id, base, k, rec.version)
    ensures UniqueKeys(packages + [rec])
  {
    var after := packages + [rec];
    forall i, j | 0 <= i < j < |after| ensures !HasKey(after[i], after[j].id, after[j].version) {
      if j == |packages| {
        assert !HasKey(packages[i], rec.id, rec.version);
      }
    }
  }

  /** Registering goes record by record: each stays or goes for itself, and what stays keeps its order. */
  lemma {:induction false} WithoutJoin(packages: seq<Record>, more: seq<Record>, id: string, version: string)
    ensures Without(packages + more, id, version) == Without(packages, id, version) + Without(more, id, version)
  {
    if |more| == 0 {
      assert packages + more == packages;
    } else {
      var front := more[..|more| - 1];
      WithoutJoin(packages, front, id, version);
      assert (packages + more)[..|packages + more| - 1] == packages + front;
    }
  }

  /** So does a removal. */
  lemma {:induction false} KeptJoin(packages: seq<Record>, more: seq<Record>, id: string, version: Option<string>)
    ensures Kept(packages + more, id, version) == Kept(packages, id, version) + Kept(more, id, version)
  {
    hide Strip;
    if |more| == 0 {
      assert packages + more == packages;
    } else {
      var front := more[..|more| - 1];
      KeptJoin(packages, front, id, version);
      assert (packages + more)[..|packages + more| - 1] == packages + front;
    }
  }

  lemma OneRecord(r: Record, id: string, version: string, some: Option<string>)
    ensures Without([r], id, version) == if r.id == id && r.version == version then [] else [r]
    ensures Kept([r], id, some) ==
            if Strip(r.id) == id && (some.None? || Strip(r.version) == some.value) then [] else [r]
  {
    assert [r][..0] == [];
  }

  lemma {:induction false} WithoutMeans(packages: seq<Record>, id: string, version: string)
    requires UniqueKeys(packages)
    ensures var kept := Without(packages, id, version);
            && UniqueKeys(kept)
            && forall r :: r in kept <==> r in packages && !HasKey(r, id, version)
  {
    if |packages| > 0 {
      var front, last := packages[..|packages| - 1], packages[|packages| - 1];
      assert packages == front + [last];
      assert UniqueKeys(front);
      WithoutMeans(front, id, version);
      var kept := Without(front, id, version);
      forall i | 0 <= i < |kept| ensures !HasKey(kept[i], last.id, last.version) {
        assert kept[i] in front;
        var n :| 0 <= n < |front| && front[n] == kept[i];
        assert !HasKey(packages[n], packages[|front|].id, packages[|front|].version);
      }
    }
  }

  lemma {:induction false} KeptMeans(packages: seq<Record>, id: string, version: Option<string>)
    requires UniqueKeys(packages)
    ensures var kept := Kept(packages, id, version);
            && UniqueKeys(kept)
            && forall r :: r in kept <==>
                             r in packages &&
                              !(Strip(r.id) == id && (version.None? || Strip(r.version) == version.value))
  {
    if |packages| > 0 {
      var front, last := packages[..|packages| - 1], packages[|packages| - 1];
      assert packages == front + [last];
      assert UniqueKeys(front);
      KeptMeans(front, id, version);
      var kept := Kept(front, id, version);
      forall i | 0 <= i < |kept| ensures !HasKey(kept[i], last.id, last.version) {
        assert kept[i] in front;
        var n :| 0 <= n < |front| && front[n] == kept[i];
        assert !HasKey(packages[n], packages[|front|].id, packages[|front|].version);
      }
    }
  }

  predicate Stripped(r: Record) {
    Strip(r.id) == r.id && Strip(r.version) == r.version
  }

  /** Registering a record keeps the keys unique exactly when the record's id and version come stripped,
      or its unstripped key was not stored before: the store compares stripped names with stored ones. */
  lemma AppendKeepsUniqueIff(packages: seq<Record>, record: Record)
    requires UniqueKeys(packages)
    ensures UniqueKeys(Without(packages, Strip(record.id), Strip(record.version)) + [record]) <==>
            Stripped(record) || !Stored(packages, record.id, record.version)
  {
    var kept := Without(packages, Strip(record.id), Strip(record.version));
    var after := kept + [record];
    WithoutMeans(packages, Strip(record.id), Strip(record.version));
    if Stripped(record) || !Stored(packages, record.id, record.version) {
      forall i, j | 0 <= i < j < |after| ensures !HasKey(after[i], after[j].id, after[j].version) {
        if j == |kept| {
          assert kept[i] in packages && !HasKey(kept[i], Strip(record.id), Strip(record.version));
        }
      }
    } else {
      var n :| 0 <= n < |packages| && HasKey(packages[n], record.id, record.version);
      assert packages[n] in kept;
      var i :| 0 <= i < |kept| && kept[i] == packages[n];
      assert HasKey(after[i], after[|kept|].id, after[|kept|].version);
    }
  }

  /** An unstripped record registered twice is stored twice. */
  lemma UnstrippedTwice(record: Record)
    requires !Stripped(record)
    ensures var once := Without([], Strip(record.id), Strip(record.version)) + [record];
            var twice := Without(once, Strip(record.id), Strip(record.version)) + [record];
            once == [record] && twice == [record, record] && !UniqueKeys(twice)
  {
    hide Strip;
    var twice := [record, record];
    assert [record][..0] == [] && HasKey(twice[0], twice[1].id, twice[1].version);
  }

  // ----- any serial run of the three operations -----

  /** One call: its effect as the methods above promise it. */
  datatype Change =
    | Promoted(rec: Record, base: string, k: nat)
    | Appended(record: Record)
    | Removed(id: string, version: Option<string>)

  ghost predicate Changes(before: seq<Record>, c: Change, after: seq<Record>) {
    match c
    case Promoted(rec, base, k) => IsFirstFree(before, rec.id, base, k, rec.version) && after == before + [rec]
    case Appended(record) =>
      after == Without(before, Strip(record.id), Strip(record.version)) + [record]
    case Removed(id, version) => after == Kept(before, id, version)
  }

  /** Every record registered along the way is stripped. */
  ghost predicate History(states: seq<seq<Record>>, changes: seq<Change>) {
    && |states| == |changes| + 1
    && forall k :: 0 <= k < |changes| ==>
         && Changes(states[k], changes[k], states[k + 1])
         && (changes[k].Appended? ==> Stripped(changes[k].record))
  }

  lemma {:induction false} KeysStayUnique(states: seq<seq<Record>>, changes: seq<Change>)
    requires History(states, changes) && UniqueKeys(states[0])
    ensures UniqueKeys(states[|changes|])
    decreases |changes|
  {
    if |changes| > 0 {
      var n := |changes| - 1;
      KeysStayUnique(states[..n + 1], changes[..n]);
      assert Changes(states[n], changes[n], states[n + 1]);
      match changes[n] {
        case Promoted(rec, base, k) => PromoteKeepsUnique(states[n], rec, base, k);
        case Appended(record) => AppendKeepsUniqueIff(states[n], record);
        case Removed(id, version) => KeptMeans(states[n], id, version);
      }
    }
  }
}
