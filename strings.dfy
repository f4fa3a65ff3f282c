/** java.lang.String.trim: removes every leading and trailing character
    whose code is at most U+0020 (spaces and control characters). */
module Strings {

  predicate IsTrimmable(c: char) {
    c <= ' '
  }

  /** A string that trims to nothing. */
  predicate IsBlank(s: string) {
    forall k :: 0 <= k < |s| ==> IsTrimmable(s[k])
  }

  /** s without its leading trimmable characters. */
  function TrimStart(s: string): (r: string)
    ensures |r| <= |s|
    ensures r != [] ==> !IsTrimmable(r[0]) && r[|r| - 1] == s[|s| - 1]
    ensures r == [] <==> IsBlank(s)
  {
    if s != [] && IsTrimmable(s[0]) then TrimStart(s[1..]) else s
  }

  /** s without its trailing trimmable characters. */
  function TrimEnd(s: string): (r: string)
    ensures |r| <= |s|
    ensures r != [] ==> !IsTrimmable(r[|r| - 1]) && r[0] == s[0]
    ensures r == [] <==> IsBlank(s)
  {
    if s != [] && IsTrimmable(s[|s| - 1]) then TrimEnd(s[..|s| - 1]) else s
  }

  /** String.trim: s without its leading and trailing trimmable characters. */
  function Trim(s: string): (r: string)
    ensures |r| <= |s|
    ensures r != [] ==> !IsTrimmable(r[0]) && !IsTrimmable(r[|r| - 1])
    ensures r == [] <==> IsBlank(s)
  {
    TrimEnd(TrimStart(s))
  }

  /** A string that neither starts nor ends with a trimmable character is
      its own trim. */
  lemma TrimOfTrimmed(s: string)
    requires s == [] || (!IsTrimmable(s[0]) && !IsTrimmable(s[|s| - 1]))
    ensures Trim(s) == s
  {
  }

  /** Trimming twice is trimming once. */
  lemma TrimIdempotent(s: string)
    ensures Trim(Trim(s)) == Trim(s)
  {
  }

  lemma {:induction false} TrimStartIsSuffix(s: string)
    ensures var n := |s| - |TrimStart(s)|; TrimStart(s) == s[n..] && IsBlank(s[..n])
  {
    if s != [] && IsTrimmable(s[0]) {
      var t := s[1..];
      TrimStartIsSuffix(t);
      var n := |s| - |TrimStart(s)|;
      assert t[n - 1..] == s[n..];
      forall k | 0 <= k < n
        ensures IsTrimmable(s[..n][k])
      {
        if k > 0 {
          assert s[..n][k] == t[..n - 1][k - 1];
        }
      }
    }
  }

  lemma {:induction false} TrimEndIsPrefix(s: string)
    ensures var n := |TrimEnd(s)|; TrimEnd(s) == s[..n] && IsBlank(s[n..])
  {
    if s != [] && IsTrimmable(s[|s| - 1]) {
      var t := s[..|s| - 1];
      TrimEndIsPrefix(t);
      var n := |TrimEnd(s)|;
      assert t[..n] == s[..n];
      assert s[n..] == t[n..] + [s[|s| - 1]];
    }
  }

  /** Slicing a suffix is slicing the whole. */
  lemma SliceOfSuffix(s: string, i: nat, n: nat)
    requires i + n <= |s|
    ensures s[i..][..n] == s[i..i + n] && s[i..][n..] == s[i + n..]
  {
  }

  /** The trim is the part of s between a blank prefix and a blank suffix. */
  lemma TrimIsInfix(s: string)
    ensures var i, r := |s| - |TrimStart(s)|, Trim(s);
      i + |r| <= |s| && r == s[i..i + |r|] && IsBlank(s[..i]) && IsBlank(s[i + |r|..])
  {
    var t := TrimStart(s);
    TrimStartIsSuffix(s);
    TrimEndIsPrefix(t);
    SliceOfSuffix(s, |s| - |t|, |Trim(s)|);
  }
}
