/** JavaScript's `String.prototype.trim`, as the task list applies it to the text typed by the user. */
module Text {

  /** The code points ECMAScript counts as WhiteSpace or LineTerminator: the characters `trim` strips. */
  predicate IsWhitespace(c: char)
  {
    var n := c as int;
    n == 0x09 || n == 0x0A || n == 0x0B || n == 0x0C || n == 0x0D || n == 0x20
    || n == 0xA0 || n == 0x1680 || (0x2000 <= n <= 0x200A)
    || n == 0x2028 || n == 0x2029 || n == 0x202F || n == 0x205F || n == 0x3000 || n == 0xFEFF
  }

  predicate AllWhitespace(s: string)
  {
    forall k :: 0 <= k < |s| ==> IsWhitespace(s[k])
  }

  /** Drops the leading run of whitespace. */
  function TrimStart(s: string): string
  {
    if s != [] && IsWhitespace(s[0]) then TrimStart(s[1..]) else s
  }

  /** `TrimStart` keeps the suffix of `s` that starts at its first non-whitespace character. */
  lemma {:induction false} TrimStartSpec(s: string)
    ensures |TrimStart(s)| <= |s| && TrimStart(s) == s[|s| - |TrimStart(s)|..]
    ensures forall k :: 0 <= k < |s| - |TrimStart(s)| ==> IsWhitespace(s[k])
    ensures TrimStart(s) == [] || !IsWhitespace(TrimStart(s)[0])
  {
    if s != [] && IsWhitespace(s[0]) {
      TrimStartSpec(s[1..]);
    }
  }

  /** Drops the trailing run of whitespace. */
  function TrimEnd(s: string): string
  {
    if s != [] && IsWhitespace(s[|s| - 1]) then TrimEnd(s[..|s| - 1]) else s
  }

  /** `TrimEnd` keeps the prefix of `s` that ends at its last non-whitespace character. */
  lemma {:induction false} TrimEndSpec(s: string)
    ensures |TrimEnd(s)| <= |s| && TrimEnd(s) == s[..|TrimEnd(s)|]
    ensures forall k :: |TrimEnd(s)| <= k < |s| ==> IsWhitespace(s[k])
    ensures TrimEnd(s) == [] || !IsWhitespace(TrimEnd(s)[|TrimEnd(s)| - 1])
  {
    if s != [] && IsWhitespace(s[|s| - 1]) {
      TrimEndSpec(s[..|s| - 1]);
    }
  }

  /** `s.trim()`: the infix of `s` left between its leading and its trailing whitespace. */
  function Trim(s: string): (r: string)
    ensures |r| <= |s|
    ensures r == [] <==> AllWhitespace(s)
    ensures r != [] ==> !IsWhitespace(r[0]) && !IsWhitespace(r[|r| - 1])
    ensures exists i :: 0 <= i <= |s| - |r| && r == s[i..i + |r|] && IsTrimmedInfix(s, i, |r|)
  {
    var t := TrimStart(s);
    var r := TrimEnd(t);
    TrimShape(s, t, r);
    r
  }

  /** `s[i..i + n]` is flanked in `s` by whitespace only. */
  predicate IsTrimmedInfix(s: string, i: nat, n: nat)
    requires i + n <= |s|
  {
    (forall k :: 0 <= k < i ==> IsWhitespace(s[k]))
    && (forall k :: i + n <= k < |s| ==> IsWhitespace(s[k]))
  }

  lemma TrimShape(s: string, t: string, r: string)
    requires t == TrimStart(s) && r == TrimEnd(t)
    ensures |t| <= |s| && |r| <= |t|
    ensures r == s[|s| - |t|..|s| - |t| + |r|] && IsTrimmedInfix(s, |s| - |t|, |r|)
    ensures r != [] ==> !IsWhitespace(r[0]) && !IsWhitespace(r[|r| - 1])
    ensures r == [] <==> AllWhitespace(s)
  {
    TrimStartSpec(s);
    TrimEndSpec(t);
    InfixBetweenRuns(s, |s| - |t|, t, r);
  }

  /** Trimming a suffix after a whitespace run, then a prefix before one, leaves a flanked infix. */
  lemma InfixBetweenRuns(s: string, i: nat, t: string, r: string)
    requires i <= |s| && t == s[i..] && |r| <= |t| && r == t[..|r|]
    requires forall k :: 0 <= k < i ==> IsWhitespace(s[k])
    requires forall k :: |r| <= k < |t| ==> IsWhitespace(t[k])
    requires t == [] || !IsWhitespace(t[0])
    requires r == [] || !IsWhitespace(r[|r| - 1])
    ensures r == s[i..i + |r|] && IsTrimmedInfix(s, i, |r|)
    ensures r != [] ==> !IsWhitespace(r[0])
    ensures r == [] <==> AllWhitespace(s)
  {
    forall k | i + |r| <= k < |s| ensures IsWhitespace(s[k]) {
      assert s[k] == t[k - i];
    }
    if r != [] {
      assert r[0] == t[0];
      assert !AllWhitespace(s) by { assert s[i] == t[0]; }
    } else {
      assert t == [] && i == |s|;
    }
  }

  /** The guard of the add form: the input counts as blank when trimming leaves nothing. */
  predicate IsBlank(s: string)
  {
    Trim(s) == ""
  }

  /** A string is a fixpoint of `Trim` exactly when it neither starts nor ends with whitespace. */
  lemma TrimFixpoint(s: string)
    ensures Trim(s) == s <==> (s == [] || (!IsWhitespace(s[0]) && !IsWhitespace(s[|s| - 1])))
  {
    if s == [] || (!IsWhitespace(s[0]) && !IsWhitespace(s[|s| - 1])) {
      assert TrimStart(s) == s;
      assert TrimEnd(s) == s;
    }
  }

  /** Trimming twice is trimming once. */
  lemma {:induction false} TrimIdempotent(s: string)
    ensures Trim(Trim(s)) == Trim(s)
  {
    TrimFixpoint(Trim(s));
  }
}
