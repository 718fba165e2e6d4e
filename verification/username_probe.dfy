/** The username a first Google sign-in gives a new account: the base name,
    then `base_1`, `base_2`, ... until one is free. */
module UsernameProbe {
  import opened Results
  import opened Text

  /** `(name or email.split("@")[0]).strip()`: the display name when it is
      present and non-empty, otherwise the local part of the address. */
  function BaseUsername(name: Option<string>, email: string): (base: string)
    ensures IsStripped(base)
    ensures name.Some? && name.value != "" ==> base == Strip(name.value)
    ensures name.None? || name.value == "" ==> base == Strip(BeforeAt(email))
  {
    Strip(if name.Some? && name.value != "" then name.value else BeforeAt(email))
  }

  /** The name tried at attempt `k`.  Attempt 0 is the base itself, or
      "user" when the base is empty; attempt k >= 1 is `f"{base}_{k}"`, so
      the fallback never reaches the suffixed names. */
  function Candidate(base: string, k: nat): (name: string)
    ensures name != ""
    ensures k == 0 && base != "" ==> name == base
    ensures k == 0 && base == "" ==> name == "user"
    ensures k >= 1 ==>
      && |name| > |base| + 1 && name[..|base|] == base && name[|base|] == '_'
      && name[|base| + 1..] == NatToDecimal(k)
  {
    if k == 0 then (if base == "" then "user" else base)
    else
      var name := base + "_" + NatToDecimal(k);
      assert name[..|base|] == base;
      assert name[|base| + 1..] == NatToDecimal(k);
      name
  }

  /** Different attempts past the first never propose the same name. */
  lemma SuffixedInjective(base: string, j: nat, k: nat)
    requires 1 <= j && 1 <= k
    requires Candidate(base, j) == Candidate(base, k)
    ensures j == k
  {
    var p := |base| + 1;
    assert Candidate(base, j)[p..] == NatToDecimal(j);
    assert Candidate(base, k)[p..] == NatToDecimal(k);
    DecimalInjective(j, k);
  }

  /** The names proposed by attempts 1 .. k-1. */
  ghost function Probed(base: string, k: nat): set<string>
  {
    if k <= 1 then {} else Probed(base, k - 1) + {Candidate(base, k - 1)}
  }

  lemma {:induction false} ProbedExcludesLater(base: string, k: nat, m: nat)
    requires 1 <= k <= m
    ensures Candidate(base, m) !in Probed(base, k)
  {
    if k > 1 {
      ProbedExcludesLater(base, k - 1, m);
      if Candidate(base, k - 1) == Candidate(base, m) {
        SuffixedInjective(base, k - 1, m);
      }
    }
  }

  /** Attempts 1 .. k-1 propose k-1 distinct names. */
  lemma {:induction false} ProbedSize(base: string, k: nat)
    requires 1 <= k
    ensures |Probed(base, k)| == k - 1
  {
    if k > 1 {
      ProbedSize(base, k - 1);
      ProbedExcludesLater(base, k - 1, k - 1);
    }
  }

  lemma SubsetSize(a: set<string>, b: set<string>)
    requires a <= b
    ensures |a| <= |b|
  {
    assert b == a + (b - a);
  }

  /** The `while` loop of the sign-in route from attempt `k` on.  It stops:
      the names tried so far are distinct and all taken, so no more than
      `|taken|` attempts can fail. */
  function ProbeFrom(base: string, taken: set<string>, k: nat): (r: nat)
    requires 1 <= k
    requires Probed(base, k) <= taken
    ensures k <= r
    ensures Candidate(base, r) !in taken
    ensures forall j :: k <= j < r ==> Candidate(base, j) in taken
    decreases |taken| + 1 - k
  {
    if Candidate(base, k) !in taken then k
    else
      ProbedSize(base, k + 1);
      SubsetSize(Probed(base, k + 1), taken);
      ProbeFrom(base, taken, k + 1)
  }

  /** The attempt at which the probe stops: the first whose name is free. */
  function FirstFreeAttempt(base: string, taken: set<string>): (k: nat)
    ensures Candidate(base, k) !in taken
    ensures forall j :: 0 <= j < k ==> Candidate(base, j) in taken
  {
    if Candidate(base, 0) !in taken then 0 else ProbeFrom(base, taken, 1)
  }

  /** The username the probe settles on. */
  function FirstFreeUsername(base: string, taken: set<string>): (name: string)
    ensures name !in taken
    ensures name == Candidate(base, FirstFreeAttempt(base, taken))
  {
    Candidate(base, FirstFreeAttempt(base, taken))
  }

  /** With "alice" and "alice_1" in use, a new "alice" becomes "alice_2". */
  lemma AliceExample()
    ensures FirstFreeUsername("alice", {"alice", "alice_1"}) == "alice_2"
  {
    var taken := {"alice", "alice_1"};
    var k := FirstFreeAttempt("alice", taken);
    assert NatToDecimal(1) == "1";
    assert NatToDecimal(2) == "2";
    assert Candidate("alice", 0) == "alice";
    assert Candidate("alice", 1) == "alice_1";
    assert Candidate("alice", 2) == "alice_2";
  }

  /** With "user" in use and an empty base, the next name is "_1". */
  lemma EmptyBaseExample()
    ensures FirstFreeUsername("", {"user"}) == "_1"
  {
    var k := FirstFreeAttempt("", {"user"});
    assert NatToDecimal(1) == "1";
    assert Candidate("", 1) == "_1";
  }
}
