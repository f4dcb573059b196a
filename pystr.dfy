/**
 * The Python `str` operations the core relies on, over `seq<char>`:
 * `isspace`, `strip`, `upper`, `lower`, `replace(c, '')`, substring `in`,
 * `zfill` and `isalnum`. Case mapping and `isalnum` are modelled for ASCII.
 */
module PyStr {

  /** str.isspace() for one character: the characters Python treats as whitespace. */
  predicate IsSpace(c: char) {
    c == ' ' || c == '\t' || c == '\n' || c == '\r' || c == '\U{0B}' || c == '\U{0C}'
    || ('\U{1C}' <= c <= '\U{1F}') || c == '\U{85}' || c == '\U{A0}' || c == '\U{1680}'
    || ('\U{2000}' <= c <= '\U{200A}') || c == '\U{2028}' || c == '\U{2029}'
    || c == '\U{202F}' || c == '\U{205F}' || c == '\U{3000}'
  }

  predicate IsDigit(c: char) { '0' <= c <= '9' }

  predicate IsAlnumChar(c: char) { IsDigit(c) || 'a' <= c <= 'z' || 'A' <= c <= 'Z' }

  /** str.isalnum(): non-empty and every character a letter or a digit. */
  predicate IsAlnum(s: string) {
    |s| > 0 && forall i | 0 <= i < |s| :: IsAlnumChar(s[i])
  }

  function UpperChar(c: char): char {
    if 'a' <= c <= 'z' then (c as int - 32) as char else c
  }

  function LowerChar(c: char): char {
    if 'A' <= c <= 'Z' then (c as int + 32) as char else c
  }

  /** str.upper() */
  function Upper(s: string): (r: string)
    ensures |r| == |s|
  {
    seq(|s|, i requires 0 <= i < |s| => UpperChar(s[i]))
  }

  /** str.lower() */
  function Lower(s: string): (r: string)
    ensures |r| == |s|
  {
    seq(|s|, i requires 0 <= i < |s| => LowerChar(s[i]))
  }

  /** str.lstrip(): `s` without its leading whitespace. */
  function TrimStart(s: string): (r: string)
    ensures |r| <= |s|
  {
    if |s| > 0 && IsSpace(s[0]) then TrimStart(s[1..]) else s
  }

  /** str.rstrip(): `s` without its trailing whitespace. */
  function TrimEnd(s: string): (r: string)
    ensures |r| <= |s|
  {
    if |s| > 0 && IsSpace(s[|s| - 1]) then TrimEnd(s[..|s| - 1]) else s
  }

  /** str.strip(): `s` without its leading and trailing whitespace. */
  function Strip(s: string): (r: string)
    ensures |r| <= |s|
  {
    TrimEnd(TrimStart(s))
  }

  /** lstrip() keeps a suffix of `s`, drops only whitespace and leaves no leading whitespace. */
  lemma {:induction false} TrimStartDropsSpace(s: string)
    ensures TrimStart(s) == s[|s| - |TrimStart(s)|..]
    ensures forall i | 0 <= i < |s| - |TrimStart(s)| :: IsSpace(s[i])
    ensures |TrimStart(s)| > 0 ==> !IsSpace(TrimStart(s)[0])
  {
    if |s| > 0 && IsSpace(s[0]) {
      TrimStartDropsSpace(s[1..]);
    }
  }

  /** rstrip() keeps a prefix of `s`, drops only whitespace and leaves no trailing whitespace. */
  lemma {:induction false} TrimEndDropsSpace(s: string)
    ensures TrimEnd(s) == s[..|TrimEnd(s)|]
    ensures forall i | |TrimEnd(s)| <= i < |s| :: IsSpace(s[i])
    ensures |TrimEnd(s)| > 0 ==> !IsSpace(TrimEnd(s)[|TrimEnd(s)| - 1])
  {
    if |s| > 0 && IsSpace(s[|s| - 1]) {
      TrimEndDropsSpace(s[..|s| - 1]);
    }
  }

  /** strip() leaves neither leading nor trailing whitespace. */
  lemma StripEnds(s: string)
    ensures |Strip(s)| > 0 ==> !IsSpace(Strip(s)[0]) && !IsSpace(Strip(s)[|Strip(s)| - 1])
  {
    var t := TrimStart(s);
    TrimStartDropsSpace(s);
    TrimEndDropsSpace(t);
    var r := TrimEnd(t);
    if |r| > 0 {
      assert r[0] == t[0];
    }
  }

  /** strip() keeps the characters of `s` that lie between its leading and trailing whitespace. */
  lemma StripKeeps(s: string, i: nat)
    requires i < |s| && !IsSpace(s[i])
    ensures s[i] in Strip(s)
  {
    var t := TrimStart(s);
    TrimStartDropsSpace(s);
    var k := i - (|s| - |t|);
    assert 0 <= k < |t| && t[k] == s[i];
    TrimEndDropsSpace(t);
    var r := TrimEnd(t);
    assert r[k] == s[i];
  }

  /** strip() adds no character. */
  lemma StripSubset(s: string, x: char)
    requires x in Strip(s)
    ensures x in s
  {
    var t := TrimStart(s);
    TrimStartDropsSpace(s);
    TrimEndDropsSpace(t);
    var r := Strip(s);
    var k :| 0 <= k < |r| && r[k] == x;
    assert t[k] == x;
    assert s[|s| - |t| + k] == x;
  }

  /** str.replace(c, ''): `s` with every occurrence of `c` removed, the rest kept in order. */
  function RemoveAll(s: string, c: char): (r: string)
    ensures |r| <= |s|
  {
    if |s| == 0 then [] else (if s[0] == c then [] else [s[0]]) + RemoveAll(s[1..], c)
  }

  /** `needle` occurs in `hay` starting at index `i`. */
  predicate OccursAt(hay: string, needle: string, i: nat) {
    i + |needle| <= |hay| && hay[i..i + |needle|] == needle
  }

  /** Substring test `needle in hay`, scanning the start positions of `hay` from the left. */
  predicate Contains(hay: string, needle: string) {
    |needle| <= |hay| && (hay[..|needle|] == needle || Contains(hay[1..], needle))
  }

  /** The scan agrees with the definition of a substring: `needle` occurs at some position. */
  lemma {:induction false} ContainsOccurs(hay: string, needle: string)
    ensures Contains(hay, needle) <==> exists i: nat | i <= |hay| :: OccursAt(hay, needle, i)
  {
    if |needle| <= |hay| && hay[..|needle|] != needle {
      ContainsOccurs(hay[1..], needle);
      if exists i: nat | i <= |hay| :: OccursAt(hay, needle, i) {
        var i: nat :| i <= |hay| && OccursAt(hay, needle, i);
        assert i != 0;
        assert OccursAt(hay[1..], needle, i - 1) by {
          assert hay[1..][i - 1..i - 1 + |needle|] == hay[i..i + |needle|];
        }
      }
      if Contains(hay[1..], needle) {
        var i: nat :| i <= |hay[1..]| && OccursAt(hay[1..], needle, i);
        assert hay[1..][i..i + |needle|] == hay[i + 1..i + 1 + |needle|];
        assert OccursAt(hay, needle, i + 1);
      }
    } else if |needle| <= |hay| {
      assert OccursAt(hay, needle, 0);
    }
  }

  predicate HasSign(s: string) { |s| > 0 && (s[0] == '+' || s[0] == '-') }

  function Zeros(n: nat): (r: string)
    ensures |r| == n && forall i | 0 <= i < n :: r[i] == '0'
  {
    seq(n, _ => '0')
  }

  /**
   * str.zfill(width): left-pad with '0' up to `width` characters; a leading sign
   * stays in front of the padding; a string already `width` long is unchanged.
   */
  function ZFill(s: string, width: nat): (r: string)
    ensures |r| == if |s| >= width then |s| else width
    ensures |s| >= width ==> r == s
    ensures !HasSign(s) ==>
      r[|r| - |s|..] == s && forall i | 0 <= i < |r| - |s| :: r[i] == '0'
    ensures HasSign(s) ==>
      r[0] == s[0] && r[|r| - |s| + 1..] == s[1..] && forall i | 1 <= i <= |r| - |s| :: r[i] == '0'
  {
    if |s| >= width then s
    else if HasSign(s) then [s[0]] + Zeros(width - |s|) + s[1..]
    else Zeros(width - |s|) + s
  }

  // ---------------------------------------------------------------------
  // Facts about these operations used by the rest of the model

  lemma {:induction false} RemoveAllAppend(a: string, b: string, c: char)
    ensures RemoveAll(a + b, c) == RemoveAll(a, c) + RemoveAll(b, c)
  {
    if |a| == 0 {
      assert a + b == b;
    } else {
      assert (a + b)[1..] == a[1..] + b;
      RemoveAllAppend(a[1..], b, c);
    }
  }

  /** An inserted `c` disappears again when `c` is removed. */
  lemma RemoveAllInserted(a: string, b: string, c: char)
    ensures RemoveAll(a + [c] + b, c) == RemoveAll(a + b, c)
  {
    RemoveAllAppend(a + [c], b, c);
    RemoveAllAppend(a, [c], c);
    RemoveAllAppend(a, b, c);
    assert RemoveAll([c], c) == [];
  }

  /** An inserted character other than the one removed stays where it was put. */
  lemma RemoveAllKeepsInserted(a: string, b: string, x: char, c: char)
    requires x != c
    ensures RemoveAll(a + [x] + b, c) == RemoveAll(a, c) + [x] + RemoveAll(b, c)
  {
    RemoveAllAppend(a + [x], b, c);
    RemoveAllAppend(a, [x], c);
    assert RemoveAll([x], c) == [x];
  }

  /** Characters other than `c` around a string stay around it when `c` is removed. */
  lemma RemoveAllEnclosed(open: char, s: string, close: char, c: char)
    requires open != c && close != c
    ensures RemoveAll([open] + s + [close], c) == [open] + RemoveAll(s, c) + [close]
  {
    RemoveAllKeepsInserted([], s + [close], open, c);
    assert [] + [open] + (s + [close]) == [open] + s + [close];
    RemoveAllKeepsInserted(s, [], close, c);
    assert s + [close] + [] == s + [close];
    assert RemoveAll([], c) == [];
  }

  /** Removing a character that does not occur changes nothing. */
  lemma {:induction false} RemoveAllAbsent(s: string, c: char)
    requires c !in s
    ensures RemoveAll(s, c) == s
  {
    if |s| > 0 {
      assert s[1..] == s[..][1..];
      RemoveAllAbsent(s[1..], c);
    }
  }

  /** Removal adds no character. */
  lemma {:induction false} RemoveAllSubset(s: string, c: char, x: char)
    requires x in RemoveAll(s, c)
    ensures x in s && x != c
  {
    if |s| > 0 && (s[0] == c || s[0] != x) {
      RemoveAllSubset(s[1..], c, x);
    }
  }

  /** No `c` is left. */
  lemma RemoveAllRemoves(s: string, c: char)
    ensures c !in RemoveAll(s, c)
  {
    if c in RemoveAll(s, c) {
      RemoveAllSubset(s, c, c);
    }
  }

  /** Every character other than `c` survives the removal. */
  lemma {:induction false} RemoveAllKeeps(s: string, c: char, x: char)
    requires x in s && x != c
    ensures x in RemoveAll(s, c)
  {
    if s[0] != x {
      RemoveAllKeeps(s[1..], c, x);
    }
  }

  /** A string whose first and last characters are not whitespace is its own strip. */
  lemma StripUnpadded(s: string)
    requires |s| > 0 && !IsSpace(s[0]) && !IsSpace(s[|s| - 1])
    ensures Strip(s) == s
  {
  }

  /** strip() is idempotent. */
  lemma StripIdempotent(s: string)
    ensures Strip(Strip(s)) == Strip(s)
  {
    StripEnds(s);
    if |Strip(s)| > 0 {
      StripUnpadded(Strip(s));
    }
  }

  lemma {:induction false} TrimStartLower(s: string)
    ensures TrimStart(Lower(s)) == Lower(TrimStart(s))
  {
    if |s| > 0 {
      var ls := Lower(s);
      assert ls[0] == LowerChar(s[0]);
      assert IsSpace(ls[0]) == IsSpace(s[0]);
      if IsSpace(s[0]) {
        assert ls[1..] == Lower(s[1..]);
        TrimStartLower(s[1..]);
      }
    }
  }

  lemma {:induction false} TrimEndLower(s: string)
    ensures TrimEnd(Lower(s)) == Lower(TrimEnd(s))
  {
    if |s| > 0 {
      var ls := Lower(s);
      assert ls[|s| - 1] == LowerChar(s[|s| - 1]);
      assert IsSpace(ls[|s| - 1]) == IsSpace(s[|s| - 1]);
      if IsSpace(s[|s| - 1]) {
        assert ls[..|s| - 1] == Lower(s[..|s| - 1]);
        TrimEndLower(s[..|s| - 1]);
      }
    }
  }

  /**
   * Lower-casing and stripping commute, so `s.lower().strip()` and
   * `s.strip().lower()` are the same string.
   */
  lemma StripLowerCommute(s: string)
    ensures Strip(Lower(s)) == Lower(Strip(s))
  {
    TrimStartLower(s);
    TrimEndLower(TrimStart(s));
  }

  /** zfill is idempotent: padding an already padded string leaves it unchanged. */
  lemma ZFillIdempotent(s: string, width: nat)
    ensures ZFill(ZFill(s, width), width) == ZFill(s, width)
  {
  }
}
