/**
 * The Python string operations the backend relies on, on `seq<char>`:
 * `str.strip()` with no argument, ASCII `str.upper()`, `str.startswith`
 * and the tail of `str.split(sep, 1)`.
 */
module Text {

  /** The characters for which Python's `str.isspace()` holds; `str.strip()` removes exactly these. */
  predicate IsSpace(c: char)
  {
    var n := c as int;
    n == 0x20 || 0x09 <= n <= 0x0D || 0x1C <= n <= 0x1F || n == 0x85 || n == 0xA0
    || n == 0x1680 || 0x2000 <= n <= 0x200A || n == 0x2028 || n == 0x2029
    || n == 0x202F || n == 0x205F || n == 0x3000
  }

  predicate IsAsciiLower(c: char) { 'a' <= c <= 'z' }

  predicate IsAsciiUpper(c: char) { 'A' <= c <= 'Z' }

  predicate IsAsciiLetter(c: char) { IsAsciiLower(c) || IsAsciiUpper(c) }

  /** No whitespace at either end. */
  predicate IsTrimmed(s: string)
  {
    s == [] || (!IsSpace(s[0]) && !IsSpace(s[|s| - 1]))
  }

  /** No ASCII lower-case letter anywhere. */
  predicate NoLower(s: string)
  {
    forall k :: 0 <= k < |s| ==> !IsAsciiLower(s[k])
  }

  /** The slice `s[i..j]` has only whitespace before and after it in `s`. */
  predicate Padded(s: string, i: int, j: int)
  {
    0 <= i <= j <= |s|
    && (forall k :: 0 <= k < i ==> IsSpace(s[k]))
    && (forall k :: j <= k < |s| ==> IsSpace(s[k]))
  }

  /** `str.lstrip()`: drop whitespace from the front. */
  function TrimStart(s: string): string
  {
    if s != [] && IsSpace(s[0]) then TrimStart(s[1..]) else s
  }

  /** `str.rstrip()`: drop whitespace from the back. */
  function TrimEnd(s: string): string
  {
    if s != [] && IsSpace(s[|s| - 1]) then TrimEnd(s[..|s| - 1]) else s
  }

  /** `str.strip()`: `s` with the whitespace at both ends removed. */
  function Strip(s: string): string
  {
    TrimEnd(TrimStart(s))
  }

  /** `TrimStart` removes a whitespace prefix and stops at the first non-space. */
  lemma {:induction false} TrimStartSpec(s: string)
    ensures var r := TrimStart(s);
      |r| <= |s| && r == s[|s| - |r|..]
      && (forall k :: 0 <= k < |s| - |r| ==> IsSpace(s[k]))
      && (r == [] || !IsSpace(r[0]))
  {
    if s != [] && IsSpace(s[0]) {
      TrimStartSpec(s[1..]);
      var r := TrimStart(s);
      forall k | 1 <= k < |s| - |r| ensures IsSpace(s[k]) {
        assert s[k] == s[1..][k - 1];
      }
    }
  }

  /** `TrimEnd` removes a whitespace suffix and stops at the last non-space. */
  lemma {:induction false} TrimEndSpec(s: string)
    ensures var r := TrimEnd(s);
      |r| <= |s| && r == s[..|r|]
      && (forall k :: |r| <= k < |s| ==> IsSpace(s[k]))
      && (r == [] || !IsSpace(r[|r| - 1]))
  {
    if s != [] && IsSpace(s[|s| - 1]) {
      TrimEndSpec(s[..|s| - 1]);
      var r := TrimEnd(s);
      forall k | |r| <= k < |s| - 1 ensures IsSpace(s[k]) {
        assert s[k] == s[..|s| - 1][k];
      }
    }
  }

  /** `Strip(s)` is a slice of `s` with no whitespace at its ends and only whitespace around it. */
  lemma StripSpec(s: string)
    ensures IsTrimmed(Strip(s))
    ensures exists i, j :: Padded(s, i, j) && Strip(s) == s[i..j]
  {
    var t := TrimStart(s);
    var r := TrimEnd(t);
    var i := |s| - |t|;
    var j := i + |r|;
    assert IsTrimmed(r) by {
      TrimStartSpec(s);
      TrimEndSpec(t);
      if r != [] {
        assert r[0] == t[0];
      }
    }
    assert Padded(s, i, j) && r == s[i..j] by {
      TrimStartSpec(s);
      TrimEndSpec(t);
      assert t == s[i..];
      forall k | j <= k < |s| ensures IsSpace(s[k]) {
        assert s[k] == t[k - i];
      }
    }
  }

  /** A padded, trimmed slice of `s` is empty exactly when `s` is all whitespace. */
  lemma TrimmedSliceEmpty(s: string, i: int, j: int)
    requires Padded(s, i, j) && IsTrimmed(s[i..j])
    ensures i == j <==> forall k :: 0 <= k < |s| ==> IsSpace(s[k])
  {
    if i < j {
      assert s[i..j][0] == s[i];
    }
  }

  /** Two trimmed slices of `s` padded by whitespace are the same string. */
  lemma PaddedUnique(s: string, i: int, j: int, i': int, j': int)
    requires Padded(s, i, j) && IsTrimmed(s[i..j])
    requires Padded(s, i', j') && IsTrimmed(s[i'..j'])
    ensures s[i..j] == s[i'..j']
  {
    TrimmedSliceEmpty(s, i, j);
    TrimmedSliceEmpty(s, i', j');
    if i < j && i' < j' {
      assert !IsSpace(s[i]) && !IsSpace(s[i']) by {
        assert s[i..j][0] == s[i] && s[i'..j'][0] == s[i'];
      }
      assert !IsSpace(s[j - 1]) && !IsSpace(s[j' - 1]) by {
        assert s[i..j][j - i - 1] == s[j - 1] && s[i'..j'][j' - i' - 1] == s[j' - 1];
      }
      assert i == i' && j == j';
    }
  }

  /** `Strip` is characterised by its two properties: any padded, trimmed slice of `s` is `Strip(s)`. */
  lemma StripUnique(s: string, i: int, j: int)
    requires Padded(s, i, j) && IsTrimmed(s[i..j])
    ensures Strip(s) == s[i..j]
  {
    var r := Strip(s);
    StripSpec(s);
    var i', j' :| Padded(s, i', j') && r == s[i'..j'];
    PaddedUnique(s, i, j, i', j');
  }

  /** Stripping a string with no surrounding whitespace leaves it unchanged. */
  lemma StripTrimmed(s: string)
    requires IsTrimmed(s)
    ensures Strip(s) == s
  {
    assert s[0..|s|] == s;
    StripUnique(s, 0, |s|);
  }

  /** Only an all-whitespace string strips to the empty string. */
  lemma StripEmpty(s: string)
    ensures Strip(s) == [] <==> forall k :: 0 <= k < |s| ==> IsSpace(s[k])
  {
    StripSpec(s);
    var i, j :| Padded(s, i, j) && Strip(s) == s[i..j];
    TrimmedSliceEmpty(s, i, j);
  }

  /** ASCII `str.upper()` of one character. */
  function UpperChar(c: char): (r: char)
    ensures !IsAsciiLower(r)
    ensures IsAsciiLower(c) ==> r as int == c as int - 32
    ensures !IsAsciiLower(c) ==> r == c
  {
    if IsAsciiLower(c) then (c as int - 32) as char else c
  }

  /** ASCII `str.upper()`. */
  function Upper(s: string): string
  {
    if s == [] then [] else [UpperChar(s[0])] + Upper(s[1..])
  }

  /** `Upper` maps each character through `UpperChar` and keeps the length. */
  lemma {:induction false} UpperSpec(s: string)
    ensures |Upper(s)| == |s|
    ensures forall k :: 0 <= k < |s| ==> Upper(s)[k] == UpperChar(s[k])
  {
    if s != [] {
      UpperSpec(s[1..]);
      assert forall k :: 1 <= k < |s| ==> Upper(s)[k] == Upper(s[1..])[k - 1];
    }
  }

  /** Upper-casing leaves no lower-case letter, is idempotent and keeps whitespace where it was. */
  lemma UpperCanonical(s: string)
    ensures NoLower(Upper(s))
    ensures Upper(Upper(s)) == Upper(s)
    ensures IsTrimmed(s) ==> IsTrimmed(Upper(s))
    ensures NoLower(s) ==> Upper(s) == s
  {
    UpperSpec(s);
    UpperSpec(Upper(s));
  }

  /** `s.startswith(p)`. */
  predicate HasPrefix(s: string, p: string)
  {
    |p| <= |s| && s[..|p|] == p
  }

  /** The index of the first occurrence of `c` in `s`. */
  function IndexOf(s: string, c: char): (k: nat)
    requires c in s
    ensures k < |s| && s[k] == c
    ensures forall m :: 0 <= m < k ==> s[m] != c
  {
    if s[0] == c then 0 else 1 + IndexOf(s[1..], c)
  }

  /** `s.split(c, 1)[1]`: everything after the first occurrence of `c`. */
  function AfterFirst(s: string, c: char): (r: string)
    requires c in s
    ensures |r| < |s| && r == s[|s| - |r|..]
    ensures c !in s[..|s| - |r| - 1] && s[|s| - |r| - 1] == c
  {
    s[IndexOf(s, c) + 1..]
  }
}
