/**
 * The file-id mapping the reassembler consults when a structure division
 * points at a file. Every file id maps to itself; in addition, every file id
 * that looks generated ("sdv-id-...") overwrites the 99 guessed original names
 * FILE1 .. FILE99 so that they all point at it. The dictionary is filled row by
 * row, so a later row overwrites an earlier one.
 */
module FileIds {
  import opened Wrappers
  import opened Tables

  const SyntheticPrefix: string := "sdv-id-"

  /** The largest guessed suffix is 99: `range(1, 100)`. */
  const GuessLimit: nat := 100

  predicate IsSynthetic(id: string) {
    HasPrefix(id, SyntheticPrefix)
  }

  function DigitChar(d: nat): char
    requires d < 10
  {
    "0123456789"[d]
  }

  /** Python's `str(n)` for a natural number. */
  function Decimal(n: nat): (s: string)
    decreases n
    ensures |s| >= 1
  {
    if n < 10 then [DigitChar(n)] else Decimal(n / 10) + [DigitChar(n % 10)]
  }

  /** The guessed original name `f"FILE{i}"`. */
  function Candidate(i: nat): (s: string)
    ensures |s| >= 5 && s[..4] == "FILE"
  {
    "FILE" + Decimal(i)
  }

  /** The 99 guessed names FILE1 .. FILE99. */
  function Candidates(): set<string> {
    set i | 1 <= i < GuessLimit :: Candidate(i)
  }

  /** `m` after the guessing loop has written FILE1 .. FILE(n-1) to `id`. */
  function Guess(m: map<string, string>, id: string, n: nat): map<string, string>
    decreases n
  {
    if n <= 1 then m else Guess(m, id, n - 1)[Candidate(n - 1) := id]
  }

  /** The dictionary after the rows `ids` have been processed in order. */
  function Mapping(ids: seq<string>): map<string, string>
    decreases |ids|
  {
    if ids == [] then map[]
    else
      var id := ids[|ids| - 1];
      var m := Mapping(ids[..|ids| - 1])[id := id];
      if IsSynthetic(id) then Guess(m, id, GuessLimit) else m
  }

  /** The index of the last generated-looking id, if any. */
  function LastSynthetic(ids: seq<string>): (r: Option<nat>)
    decreases |ids|
    ensures r.Some? ==> r.value < |ids| && IsSynthetic(ids[r.value])
    ensures r.Some? ==> forall j :: r.value < j < |ids| ==> !IsSynthetic(ids[j])
    ensures r.None? ==> forall j :: 0 <= j < |ids| ==> !IsSynthetic(ids[j])
  {
    if ids == [] then None
    else if IsSynthetic(ids[|ids| - 1]) then Some(|ids| - 1)
    else LastSynthetic(ids[..|ids| - 1])
  }

  /**
   * What the mapping gives for key `k`: the last generated-looking id when `k`
   * is a guessed name that no row names again after that id; otherwise `k`.
   */
  function Expected(ids: seq<string>, k: string): string {
    match LastSynthetic(ids)
    case Some(l) =>
      if k in Candidates() && k !in ids[l + 1..] then ids[l] else k
    case None => k
  }

  lemma CandidateNotSynthetic(k: string)
    requires k in Candidates()
    ensures !IsSynthetic(k)
  {
    var i :| 1 <= i < GuessLimit && Candidate(i) == k;
    assert k[0] == 'F';
  }

  /** One of FILE1 .. FILE(n-1). */
  predicate GuessedBelow(k: string, n: nat) {
    exists j :: 1 <= j < n && Candidate(j) == k
  }

  lemma GuessedBelowStep(k: string, n: nat)
    requires n >= 1
    ensures GuessedBelow(k, n + 1) <==> GuessedBelow(k, n) || k == Candidate(n)
  {
    if GuessedBelow(k, n + 1) && k != Candidate(n) {
      var j :| 1 <= j < n + 1 && Candidate(j) == k;
      assert 1 <= j < n;
    }
  }

  lemma {:induction false} GuessAt(m: map<string, string>, id: string, n: nat, k: string)
    requires n <= GuessLimit
    ensures k in Guess(m, id, n) <==> k in m || GuessedBelow(k, n)
    ensures k in Guess(m, id, n) ==> Guess(m, id, n)[k] == if GuessedBelow(k, n) then id else m[k]
  {
    if n > 1 {
      GuessAt(m, id, n - 1, k);
      GuessedBelowStep(k, n - 1);
    }
  }

  lemma GuessFull(m: map<string, string>, id: string, k: string)
    ensures k in Guess(m, id, GuessLimit) <==> k in m || k in Candidates()
    ensures k in Guess(m, id, GuessLimit) ==>
      Guess(m, id, GuessLimit)[k] == if k in Candidates() then id else m[k]
  {
    GuessAt(m, id, GuessLimit, k);
  }

  /**
   * The mapping, key by key: its keys are the file ids plus, once any id is
   * generated-looking, all of FILE1 .. FILE99; each value is `Expected`.
   */
  lemma {:induction false} MappingAt(ids: seq<string>, k: string)
    ensures k in Mapping(ids) <==> k in ids || (LastSynthetic(ids).Some? && k in Candidates())
    ensures k in Mapping(ids) ==> Mapping(ids)[k] == Expected(ids, k)
  {
    if ids != [] {
      var p, x := ids[..|ids| - 1], ids[|ids| - 1];
      assert ids == p + [x];
      MappingAt(p, k);
      if IsSynthetic(x) {
        MappingStepSynthetic(p, x, k);
      } else {
        MappingStepPlain(p, x, k);
      }
    }
  }

  /** A generated-looking id: the guessed names all point at it. */
  lemma MappingStepSynthetic(p: seq<string>, x: string, k: string)
    requires IsSynthetic(x)
    requires k in Mapping(p) <==> k in p || (LastSynthetic(p).Some? && k in Candidates())
    requires k in Mapping(p) ==> Mapping(p)[k] == Expected(p, k)
    ensures k in Mapping(p + [x]) <==> k in p + [x] || (LastSynthetic(p + [x]).Some? && k in Candidates())
    ensures k in Mapping(p + [x]) ==> Mapping(p + [x])[k] == Expected(p + [x], k)
  {
    var ids := p + [x];
    assert ids[..|ids| - 1] == p && ids[|ids| - 1] == x;
    var m := Mapping(p)[x := x];
    assert Mapping(ids) == Guess(m, x, GuessLimit);
    GuessFull(m, x, k);
    assert LastSynthetic(ids) == Some(|p|);
    assert ids[|p| + 1..] == [];
    if k !in Candidates() && k in Mapping(p) && k != x {
      assert Expected(p, k) == k;
    }
  }

  /** Any other id: it maps to itself and the rest is unchanged. */
  lemma MappingStepPlain(p: seq<string>, x: string, k: string)
    requires !IsSynthetic(x)
    requires k in Mapping(p) <==> k in p || (LastSynthetic(p).Some? && k in Candidates())
    requires k in Mapping(p) ==> Mapping(p)[k] == Expected(p, k)
    ensures k in Mapping(p + [x]) <==> k in p + [x] || (LastSynthetic(p + [x]).Some? && k in Candidates())
    ensures k in Mapping(p + [x]) ==> Mapping(p + [x])[k] == Expected(p + [x], k)
  {
    var ids := p + [x];
    assert ids[..|ids| - 1] == p && ids[|ids| - 1] == x;
    assert Mapping(ids) == Mapping(p)[x := x];
    assert LastSynthetic(ids) == LastSynthetic(p);
    assert k in ids <==> k in p || k == x;
    if LastSynthetic(p).Some? {
      var l := LastSynthetic(p).value;
      assert ids[l + 1..] == p[l + 1..] + [x];
      assert k in ids[l + 1..] <==> k in p[l + 1..] || k == x;
    }
  }

  /** Every file id of the table is a key of the mapping. */
  lemma EveryIdMapped(ids: seq<string>)
    ensures forall id :: id in ids ==> id in Mapping(ids)
  {
    forall id | id in ids ensures id in Mapping(ids) {
      MappingAt(ids, id);
    }
  }

  /**
   * The guess collapses: when some id is generated-looking, every guessed name
   * that no row names itself maps to one and the same id, the last generated one.
   */
  lemma GuessesCollapse(ids: seq<string>, i: nat, j: nat)
    requires LastSynthetic(ids).Some?
    requires 1 <= i < GuessLimit && 1 <= j < GuessLimit
    requires Candidate(i) !in ids && Candidate(j) !in ids
    ensures Candidate(i) in Mapping(ids) && Candidate(j) in Mapping(ids)
    ensures Mapping(ids)[Candidate(i)] == Mapping(ids)[Candidate(j)] == ids[LastSynthetic(ids).value]
  {
    var l := LastSynthetic(ids).value;
    assert Candidate(i) in Candidates() && Candidate(j) in Candidates();
    MappingAt(ids, Candidate(i));
    MappingAt(ids, Candidate(j));
  }

  /** `_build_file_id_mapping`: fills the dictionary row by row. */
  method BuildFileIdMapping(ids: seq<string>) returns (m: map<string, string>)
    ensures m == Mapping(ids)
  {
    m := map[];
    for i := 0 to |ids|
      invariant m == Mapping(ids[..i])
    {
      var id := ids[i];
      m := m[id := id];
      if IsSynthetic(id) {
        ghost var m0 := m;
        for n := 1 to GuessLimit
          invariant m == Guess(m0, id, n)
        {
          m := m[Candidate(n) := id];
        }
      }
      assert ids[..i + 1][..i] == ids[..i];
    }
    assert ids[..|ids|] == ids;
  }
}
