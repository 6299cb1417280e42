/** File names for staged media: the first free one of name, name_1, name_2, … */
module DraftNames {
  import Decimal
  import opened Sequences

  /** Where the suffix of a file name starts: at its last dot, if that is neither first nor last. */
  function LastDot(s: string): (i: int)
    ensures -1 <= i < |s|
  {
    if s == "" then -1 else if s[|s| - 1] == '.' then |s| - 1 else LastDot(s[..|s| - 1])
  }

  function SuffixAt(s: string): (i: nat)
    ensures i <= |s|
  {
    var i := LastDot(s);
    if 0 < i < |s| - 1 then i else |s|
  }

  function Stem(s: string): string { s[..SuffixAt(s)] }

  function Suffix(s: string): string { s[SuffixAt(s)..] }

  /** The k-th name tried for a file. */
  function NthName(name: string, k: nat): string {
    if k == 0 then name else Stem(name) + "_" + Decimal.Print(k) + Suffix(name)
  }

  lemma {:induction false} NamesDiffer(name: string, j: nat, k: nat)
    requires j < k
    ensures NthName(name, j) != NthName(name, k)
  {
    assert name == Stem(name) + Suffix(name);
    if j > 0 && NthName(name, j) == NthName(name, k) {
      var a, b := NthName(name, j), NthName(name, k);
      var from, to := |Stem(name)| + 1, |a| - |Suffix(name)|;
      assert Decimal.Print(j) == a[from..to] == b[from..to] == Decimal.Print(k);
      Decimal.PrintInjective(j, k);
    }
  }

  function FirstNames(name: string, n: nat): set<string> {
    if n == 0 then {} else FirstNames(name, n - 1) + {NthName(name, n - 1)}
  }

  lemma {:induction false} FirstNamesCount(name: string, n: nat)
    ensures |FirstNames(name, n)| == n
    ensures forall s :: s in FirstNames(name, n) <==> exists k: nat :: k < n && s == NthName(name, k)
  {
    if n > 0 {
      FirstNamesCount(name, n - 1);
      forall k: nat | k < n - 1 ensures NthName(name, k) != NthName(name, n - 1) {
        NamesDiffer(name, k, n - 1);
      }
    }
  }

  /** Pigeonhole: only as many names can be taken as there are taken names. */
  lemma {:induction false} TakenNamesBound(name: string, used: set<string>, n: nat)
    requires forall k: nat :: k < n ==> NthName(name, k) in used
    ensures n <= |used|
  {
    FirstNamesCount(name, n);
    SubsetSize(FirstNames(name, n), used);
  }

  /** The first name from the k-th on that is free. */
  function FreeFrom(name: string, used: set<string>, k: nat): (n: nat)
    requires forall j: nat :: j < k ==> NthName(name, j) in used
    ensures n >= k && NthName(name, n) !in used
    ensures forall j: nat :: j < n ==> NthName(name, j) in used
    decreases |used| - k
  {
    if NthName(name, k) !in used then k
    else
      TakenNamesBound(name, used, k + 1);
      FreeFrom(name, used, k + 1)
  }

  function FreeName(name: string, used: set<string>): string {
    NthName(name, FreeFrom(name, used, 0))
  }

  /** The chosen name is free, every earlier one is taken, and the search looked at no more names than are taken. */
  lemma {:induction false} FreeNameIsFirst(name: string, used: set<string>, k: nat)
    requires NthName(name, k) !in used && forall j: nat :: j < k ==> NthName(name, j) in used
    ensures FreeName(name, used) == NthName(name, k) && k <= |used|
  {
    TakenNamesBound(name, used, k);
    var n := FreeFrom(name, used, 0);
    assert n <= k && k <= n;
  }

  lemma {:induction false} LastDotIs(s: string)
    ensures var i := LastDot(s); (i >= 0 ==> s[i] == '.') && forall k :: i < k < |s| ==> s[k] != '.'
  {
    if s != "" && s[|s| - 1] != '.' { LastDotIs(s[..|s| - 1]); }
  }

  /** Behind the file's own name come its stem with _1, _2, … and its suffix; the suffix is what follows the last dot,
      with the dot, when that is neither first nor last. */
  lemma {:induction false} NamesTried(name: string, k: nat)
    requires k > 0
    ensures NthName(name, 0) == name
    ensures exists cut :: 0 <= cut <= |name| && NthName(name, k) == name[..cut] + "_" + Decimal.Print(k) + name[cut..]
              && (if cut < |name| then 0 < cut < |name| - 1 && name[cut] == '.' && forall j :: cut < j < |name| ==> name[j] != '.'
                  else forall j :: 0 < j < |name| - 1 && name[j] == '.' ==> exists m :: j < m < |name| && name[m] == '.')
  {
    LastDotIs(name);
    var cut := SuffixAt(name);
    assert NthName(name, k) == name[..cut] + "_" + Decimal.Print(k) + name[cut..];
    if cut == |name| {
      forall j | 0 < j < |name| - 1 && name[j] == '.' ensures exists m :: j < m < |name| && name[m] == '.' {
        assert name[LastDot(name)] == '.';
      }
    }
  }
}
