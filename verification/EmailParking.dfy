/** Parking a live address that a backup account needs
    (backend/scripts/migrate_accounts_to_postgres.py:301-346). */
module EmailParking {
  import opened Text

  const PARK_PREFIX := "displaced+"
  const PARK_SUFFIX := "@invalid.cerebrum-dev.restore"

  function SafeId(id: string): string {
    if WordChars(id) == "" then "unknown" else WordChars(id)
  }

  function DisplacedEmailFor(id: string): string { PARK_PREFIX + SafeId(id) + PARK_SUFFIX }

  /** The n-th address tried for an owner. */
  function Candidate(owner: string, n: nat): string {
    if n == 0 then DisplacedEmailFor(owner) else DisplacedEmailFor(owner + "_" + Decimal(n))
  }

  lemma {:induction false} NumberedWords(owner: string, n: nat)
    ensures WordChars(owner + "_" + Decimal(n)) == WordChars(owner) + "_" + Decimal(n)
  {
    WordCharsConcat(owner + "_", Decimal(n));
    WordCharsConcat(owner, "_");
    WordCharsKeeps("_");
    WordCharsKeeps(Decimal(n));
  }

  lemma {:induction false} CandidateSafe(owner: string, n: nat)
    ensures SafeId(owner + "_" + Decimal(n)) == WordChars(owner) + "_" + Decimal(n)
  {
    NumberedWords(owner, n);
  }

  lemma DisplacedInjective(a: string, b: string)
    requires DisplacedEmailFor(a) == DisplacedEmailFor(b)
    ensures SafeId(a) == SafeId(b)
  {
    var x, y := DisplacedEmailFor(a), DisplacedEmailFor(b);
    assert x[|PARK_PREFIX|..|x| - |PARK_SUFFIX|] == SafeId(a);
    assert y[|PARK_PREFIX|..|y| - |PARK_SUFFIX|] == SafeId(b);
  }

  lemma {:induction false} UnknownIsNoNumber(s: string, n: nat)
    ensures s + "_" + Decimal(n) != (if s == "" then "unknown" else s)
  {
    if s == "" {
      assert ("" + "_" + Decimal(n))[0] == '_';
    }
  }

  /** No address is ever tried twice, so a finite set of taken ones runs out. */
  lemma CandidatesDistinct(owner: string, m: nat, n: nat)
    requires m < n
    ensures Candidate(owner, m) != Candidate(owner, n)
  {
    if Candidate(owner, m) == Candidate(owner, n) {
      CandidateSafe(owner, n);
      var s := WordChars(owner);
      if m == 0 {
        DisplacedInjective(owner, owner + "_" + Decimal(n));
        UnknownIsNoNumber(s, n);
      } else {
        DisplacedInjective(owner + "_" + Decimal(m), owner + "_" + Decimal(n));
        CandidateSafe(owner, m);
        var a, b := s + "_" + Decimal(m), s + "_" + Decimal(n);
        assert a[|s| + 1..] == Decimal(m) && b[|s| + 1..] == Decimal(n);
        DecimalInjective(m, n);
      }
    }
  }

  ghost function Tried(owner: string, n: nat): set<string> { set k | 0 <= k < n :: Candidate(owner, k) }

  lemma TriedGrows(owner: string, n: nat)
    ensures Candidate(owner, n) !in Tried(owner, n)
    ensures Tried(owner, n + 1) == Tried(owner, n) + {Candidate(owner, n)}
  {
    forall k | 0 <= k < n ensures Candidate(owner, k) != Candidate(owner, n) { CandidatesDistinct(owner, k, n); }
  }

  /** How often the counter is raised, starting from n. */
  function FirstFree(owner: string, taken: set<string>, n: nat): (m: nat)
    requires Tried(owner, n) <= taken
    ensures Candidate(owner, m) !in taken && Tried(owner, m) <= taken
    decreases taken - Tried(owner, n)
  {
    if Candidate(owner, n) !in taken then n
    else
      TriedGrows(owner, n);
      FirstFree(owner, taken, n + 1)
  }

  function Parked(owner: string, taken: set<string>): string { Candidate(owner, FirstFree(owner, taken, 0)) }

  /** The `while parked in existing_emails` loop; it ends for every finite set of taken addresses. */
  method Park(owner: string, taken: set<string>) returns (parked: string)
    ensures parked == Parked(owner, taken)
    ensures parked !in taken
  {
    parked := DisplacedEmailFor(owner);
    var n := 0;
    while parked in taken
      invariant parked == Candidate(owner, n)
      invariant Tried(owner, n) <= taken
      invariant FirstFree(owner, taken, 0) == FirstFree(owner, taken, n)
      decreases taken - Tried(owner, n)
    {
      TriedGrows(owner, n);
      n := n + 1;
      parked := DisplacedEmailFor(owner + "_" + Decimal(n));
    }
  }

  /** The addresses tried for an account, written out. */
  function TriedAddress(id: string, n: nat): string {
    "displaced+"
    + (if n > 0 then WordChars(id) + "_" + Decimal(n) else if WordChars(id) == "" then "unknown" else WordChars(id))
    + "@invalid.cerebrum-dev.restore"
  }

  lemma CandidateWritten(owner: string, n: nat)
    ensures Candidate(owner, n) == TriedAddress(owner, n)
  {
    if n > 0 {
      CandidateSafe(owner, n);
    }
  }

  /** An account is parked at the first of these addresses that is not taken. */
  lemma {:induction false} ParkedExactly(owner: string, taken: set<string>) returns (n: nat)
    ensures Parked(owner, taken) == TriedAddress(owner, n) && TriedAddress(owner, n) !in taken
    ensures forall k :: 0 <= k < n ==> TriedAddress(owner, k) in taken
  {
    n := FirstFree(owner, taken, 0);
    CandidateWritten(owner, n);
    forall k | 0 <= k < n ensures TriedAddress(owner, k) in taken {
      assert Candidate(owner, k) in Tried(owner, n);
      CandidateWritten(owner, k);
    }
  }

  ghost predicate LowerId(id: string) { IsLower(WordChars(id)) }

  predicate IsParkedAddress(e: string) {
    |PARK_PREFIX| <= |e| && e[..|PARK_PREFIX|] == PARK_PREFIX
  }

  lemma CandidateIsParkedAddress(owner: string, n: nat)
    ensures IsParkedAddress(Candidate(owner, n))
  {
  }

  lemma LowerConcat(a: string, b: string)
    requires IsLower(a) && IsLower(b)
    ensures IsLower(a + b)
  {
  }

  lemma DisplacedNorm(id: string)
    requires IsLower(SafeId(id))
    ensures Norm(DisplacedEmailFor(id)) == DisplacedEmailFor(id)
  {
    LowerConcat(PARK_PREFIX, SafeId(id));
    LowerConcat(PARK_PREFIX + SafeId(id), PARK_SUFFIX);
    var e := DisplacedEmailFor(id);
    assert e[0] == PARK_PREFIX[0] && e[|e| - 1] == PARK_SUFFIX[|PARK_SUFFIX| - 1];
    NormFixed(e);
  }

  lemma CandidateNorm(owner: string, n: nat)
    requires LowerId(owner)
    ensures Norm(Candidate(owner, n)) == Candidate(owner, n)
  {
    if n == 0 {
      DisplacedNorm(owner);
    } else {
      CandidateSafe(owner, n);
      LowerConcat(WordChars(owner), "_");
      LowerConcat(WordChars(owner) + "_", Decimal(n));
      DisplacedNorm(owner + "_" + Decimal(n));
    }
  }

  lemma UpperNormDiffers(s: string)
    requires !IsLower(s)
    ensures Norm(s) != s
  {
    var i :| 0 <= i < |s| && IsUpper(s[i]);
    assert IsLower(Norm(s));
  }

  lemma UpperIsNotNormal(id: string)
    requires !LowerId(id)
    ensures !IsLower(DisplacedEmailFor(id)) && Norm(DisplacedEmailFor(id)) != DisplacedEmailFor(id)
  {
    var i :| 0 <= i < |WordChars(id)| && IsUpper(WordChars(id)[i]);
    assert DisplacedEmailFor(id)[|PARK_PREFIX| + i] == WordChars(id)[i];
    UpperNormDiffers(DisplacedEmailFor(id));
  }

  /** Parking yields an address nobody holds after normalisation, whatever is
      taken, exactly when the owner's id has no upper-case letter. */
  lemma ParkingFreshExactly(owner: string)
    ensures LowerId(owner) <==>
            forall live: set<string> :: (forall e :: e in live ==> Norm(e) == e) ==> Norm(Parked(owner, live)) !in live
  {
    if LowerId(owner) {
      forall live: set<string> | forall e :: e in live ==> Norm(e) == e
        ensures Norm(Parked(owner, live)) !in live
      {
        CandidateNorm(owner, FirstFree(owner, live, 0));
      }
    } else {
      var base := DisplacedEmailFor(owner);
      var live := {Norm(base)};
      UpperIsNotNormal(owner);
      NormTwice(base);
      assert Candidate(owner, 0) !in live;
      assert Parked(owner, live) == base;
    }
  }

  lemma NormTwice(base: string)
    requires base != "" && !IsSpace(base[0]) && !IsSpace(base[|base| - 1])
    ensures Norm(Norm(base)) == Norm(base)
  {
    assert Norm(base) == Lower(base);
    NormFixed(Lower(base));
  }
}
