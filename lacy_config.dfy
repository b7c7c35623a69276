/**
 * The configuration file of the installer (packages/lacy/index.mjs): `readConfigValue`
 * and `writeConfigValue`, which find a key with a multi-line regular expression, and the
 * file the installer writes. The expressions are modelled on characters, for keys made
 * of letters, digits and underscores: a match of `^\s*KEY:` at offset p is exactly a
 * line start at p whose leading whitespace is followed by `KEY:`, and the leftmost one wins.
 */
module LacyConfig {
  import opened Wrappers
  import opened Strings
  import opened Paths
  import opened FileSystem
  import opened LacyShell

  /** The characters that end a line for `.`, `^` and `$` of a JavaScript expression. */
  predicate IsLineTerminator(c: char) {
    c == '\n' || c == '\r' || c == '\U{2028}' || c == '\U{2029}'
  }

  /** `^` in multi-line mode: the start of the text or just after a line terminator. */
  predicate LineStart(s: string, p: int) {
    p == 0 || (0 < p <= |s| && IsLineTerminator(s[p - 1]))
  }

  /** Where a greedy `\s*` starting at i stops. */
  function SkipSpace(s: string, i: nat): (j: nat)
    requires i <= |s|
    ensures i <= j <= |s|
    ensures forall k :: i <= k < j ==> IsJsSpace(s[k])
    ensures j < |s| ==> !IsJsSpace(s[j])
    decreases |s| - i
  {
    if i < |s| && IsJsSpace(s[i]) then SkipSpace(s, i + 1) else i
  }

  /** Where a greedy `.*` starting at i stops: at the next line terminator or the end. */
  function LineEnd(s: string, i: nat): (j: nat)
    requires i <= |s|
    ensures i <= j <= |s|
    ensures forall k :: i <= k < j ==> !IsLineTerminator(s[k])
    ensures j < |s| ==> IsLineTerminator(s[j])
    decreases |s| - i
  {
    if i < |s| && !IsLineTerminator(s[i]) then LineEnd(s, i + 1) else i
  }

  /** Keys the expressions treat literally: letters, digits and underscores. */
  predicate PlainKey(key: string) {
    |key| > 0 && forall i :: 0 <= i < |key| ==> CommandNameChar(key[i]) && key[i] != '-' && key[i] != '.'
  }

  /** `^\s*KEY:` matches at offset p. */
  predicate KeyAt(s: string, key: string, p: nat) {
    p <= |s| && LineStart(s, p) && StartsWith(s[SkipSpace(s, p)..], key + ":")
  }

  /** The leftmost offset at or after `from` where the key line matches. */
  function FindKey(s: string, key: string, from: nat): (r: Option<nat>)
    requires from <= |s|
    ensures r.Some? ==> from <= r.value <= |s| && KeyAt(s, key, r.value)
    ensures r.Some? ==> forall q :: from <= q < r.value ==> !KeyAt(s, key, q)
    ensures r.None? ==> forall q :: from <= q <= |s| ==> !KeyAt(s, key, q)
    decreases |s| - from
  {
    if KeyAt(s, key, from) then Some(from)
    else if from == |s| then None
    else FindKey(s, key, from + 1)
  }

  /** Just after the colon of the key line found at p. */
  function ColonEnd(s: string, key: string, p: nat): (e: nat)
    requires KeyAt(s, key, p)
    ensures e <= |s|
  {
    SkipSpace(s, p) + |key| + 1
  }

  /** `.replace(/["']/g, "")`. */
  function RemoveQuotes(t: string): (r: string)
    ensures '"' !in r && '\'' !in r
    ensures forall c :: c in r <==> c in t && c != '"' && c != '\''
  {
    Filter(t, (c: char) => c != '"' && c != '\'')
  }

  /** The offset of the first `#`, if any. */
  function FirstHash(t: string): (r: Option<nat>)
    ensures r.None? <==> '#' !in t
    ensures r.Some? ==> r.value < |t| && t[r.value] == '#' && '#' !in t[..r.value]
  {
    if '#' !in t then None
    else if t[0] == '#' then Some(0)
    else
      var r := FirstHash(t[1..]);
      assert t[..r.value + 1] == [t[0]] + t[1..][..r.value];
      Some(r.value + 1)
  }

  /** `.replace(/#.*\/, "")`: the first `#` and the rest of its line go. */
  function CutComment(t: string): (r: string)
    ensures '#' !in t ==> r == t
  {
    match FirstHash(t)
    case None => t
    case Some(i) => t[..i] + t[LineEnd(t, i)..]
  }

  /** What `readConfigValue` makes of the captured text. */
  function CleanValue(raw: string): string {
    Trim(CutComment(RemoveQuotes(raw)))
  }

  // ---------------------------------------------------------------------------
  // As written: `\s*` after the colon also consumes line terminators.
  // ---------------------------------------------------------------------------

  /** `readConfigValue(key)` on the file's content, as the expression `^[\s]*KEY:\s*(.*)$` reads it. */
  function ReadAsWritten(s: string, key: string): (r: string)
    ensures FindKey(s, key, 0).None? ==> r == ""
  {
    match FindKey(s, key, 0)
    case None => ""
    case Some(p) =>
      var v := SkipSpace(s, ColonEnd(s, key, p));
      CleanValue(s[v..LineEnd(s, v)])
  }

  /**
   * `writeConfigValue(key, value)` on the file's content, as `^(\s*KEY:)\s*.*$` replaces it:
   * the match is taken out and the replacement string `$1 VALUE` stands in for it, with
   * the `$` patterns of VALUE expanded against the match.
   */
  function WriteAsWritten(s: string, key: string, value: string): (r: string)
    ensures FindKey(s, key, 0).None? ==> r == s
  {
    var f := FindKey(s, key, 0);
    if f.None? then s
    else
      var p := f.value;
      var e := ColonEnd(s, key, p);
      var m := LineEnd(s, SkipSpace(s, e));
      s[..p] + Substitute("$1 " + value, s[..p], s[p..m], s[m..], [s[p..e]]) + s[m..]
  }

  // ---------------------------------------------------------------------------
  // As intended: the value is the rest of the key's own line.
  // ---------------------------------------------------------------------------

  /** The corrected read: `^[\s]*KEY:(.*)$`, the trim taking the place of the dropped `\s*`. */
  function ReadConfigText(s: string, key: string): (r: string)
    ensures FindKey(s, key, 0).None? ==> r == ""
    ensures FindKey(s, key, 0).Some? ==>
      var e := ColonEnd(s, key, FindKey(s, key, 0).value);
      r == CleanValue(s[e..LineEnd(s, e)])
  {
    match FindKey(s, key, 0)
    case None => ""
    case Some(p) =>
      var e := ColonEnd(s, key, p);
      CleanValue(s[e..LineEnd(s, e)])
  }

  /** The corrected write: `^(\s*KEY:).*$` becomes the group, a space and VALUE letter for letter; the following lines stay. */
  function WriteConfigText(s: string, key: string, value: string): (r: string)
    ensures FindKey(s, key, 0).None? ==> r == s
  {
    match FindKey(s, key, 0)
    case None => s
    case Some(p) =>
      var e := ColonEnd(s, key, p);
      s[..e] + " " + value + s[LineEnd(s, e)..]
  }

  // ---------------------------------------------------------------------------
  // Facts about the scans.
  // ---------------------------------------------------------------------------

  /** A greedy `\s*` stops at the latest at the first character that is not whitespace. */
  lemma {:induction false} SkipSpaceBound(s: string, q: nat, j: nat)
    requires q <= j < |s| && !IsJsSpace(s[j])
    ensures SkipSpace(s, q) <= j
    decreases j - q
  {
    if q < j && IsJsSpace(s[q]) {
      SkipSpaceBound(s, q + 1, j);
    }
  }

  /** Two texts that agree up to n scan whitespace alike while the scan stays below n. */
  lemma {:induction false} SkipSpaceAgree(s: string, t: string, i: nat, n: nat)
    requires i <= n <= |s| && n <= |t| && s[..n] == t[..n] && SkipSpace(s, i) < n
    ensures SkipSpace(t, i) == SkipSpace(s, i)
    decreases |s| - i
  {
    assert s[i] == s[..n][i] == t[..n][i] == t[i];
    if IsJsSpace(s[i]) {
      SkipSpaceAgree(s, t, i + 1, n);
    }
  }

  /** The first character of a plain key is not whitespace. */
  lemma {:induction false} PlainKeyStart(s: string, key: string, p: nat)
    requires PlainKey(key) && KeyAt(s, key, p)
    ensures SkipSpace(s, p) < |s| && !IsJsSpace(s[SkipSpace(s, p)])
  {
    var j := SkipSpace(s, p);
    assert s[j..][..|key| + 1][0] == key[0];
  }

  /**
   * At offsets up to the match, whether the key line matches depends only on the text up
   * to the colon of the match.
   */
  lemma {:induction false} KeyAtAgree(s: string, t: string, key: string, q: nat, p: nat)
    requires PlainKey(key) && KeyAt(s, key, p) && q <= p
    requires ColonEnd(s, key, p) <= |t| && s[..ColonEnd(s, key, p)] == t[..ColonEnd(s, key, p)]
    ensures KeyAt(s, key, q) <==> KeyAt(t, key, q)
  {
    var e := ColonEnd(s, key, p);
    var sp := SkipSpace(s, p);
    PlainKeyStart(s, key, p);
    SkipSpaceBound(s, q, sp);
    var j := SkipSpace(s, q);
    SkipSpaceAgree(s, t, q, e);
    assert SkipSpace(t, q) == j;
    assert j + |key + ":"| <= e;
    WindowAgree(s, t, j, key + ":", e);
    if q > 0 {
      assert s[..e][q - 1] == t[..e][q - 1];
    }
  }

  /** Two texts that agree up to e start alike with any w that fits below e. */
  lemma {:induction false} WindowAgree(s: string, t: string, j: nat, w: string, e: nat)
    requires j + |w| <= e <= |s| && e <= |t| && s[..e] == t[..e]
    ensures StartsWith(s[j..], w) <==> StartsWith(t[j..], w)
  {
    SliceOfAgreeingPrefix(s, t, j, j + |w|, e);
    StartsWithAt(s, j, w);
    StartsWithAt(t, j, w);
  }

  /** A suffix starts with w exactly when the slice of w's length there is w. */
  lemma {:induction false} StartsWithAt(s: string, j: nat, w: string)
    requires j + |w| <= |s|
    ensures StartsWith(s[j..], w) <==> s[j..j + |w|] == w
  {
    assert s[j..][..|w|] == s[j..j + |w|];
  }

  lemma {:induction false} FindKeyFrom(s: string, t: string, key: string, from: nat, p: nat)
    requires PlainKey(key) && FindKey(s, key, 0) == Some(p) && from <= p
    requires ColonEnd(s, key, p) <= |t| && s[..ColonEnd(s, key, p)] == t[..ColonEnd(s, key, p)]
    ensures from <= |t| && FindKey(t, key, from) == Some(p)
    decreases p - from
  {
    KeyAtAgree(s, t, key, from, p);
    if from < p {
      PlainKeyStart(s, key, p);
      FindKeyFrom(s, t, key, from + 1, p);
    }
  }

  /**
   * Whatever follows the colon of the matched key line can change without moving the
   * match or its colon.
   */
  lemma {:induction false} FindKeyStable(s: string, t: string, key: string)
    requires PlainKey(key) && FindKey(s, key, 0).Some?
    requires var p := FindKey(s, key, 0).value;
      ColonEnd(s, key, p) <= |t| && s[..ColonEnd(s, key, p)] == t[..ColonEnd(s, key, p)]
    ensures FindKey(t, key, 0) == FindKey(s, key, 0)
    ensures ColonEnd(t, key, FindKey(t, key, 0).value) == ColonEnd(s, key, FindKey(s, key, 0).value)
  {
    var p := FindKey(s, key, 0).value;
    FindKeyFrom(s, t, key, 0, p);
    PlainKeyStart(s, key, p);
    SkipSpaceAgree(s, t, p, ColonEnd(s, key, p));
  }

  /** A line scan ends where the text has its first line terminator. */
  lemma {:induction false} LineEndAt(t: string, i: nat, m: nat)
    requires i <= m <= |t|
    requires forall k :: i <= k < m ==> !IsLineTerminator(t[k])
    requires m < |t| ==> IsLineTerminator(t[m])
    ensures LineEnd(t, i) == m
    decreases m - i
  {
    if i < m {
      LineEndAt(t, i + 1, m);
    }
  }

  lemma {:induction false} LineEndShift(c: char, u: string, i: nat)
    requires i <= |u|
    ensures LineEnd([c] + u, i + 1) == LineEnd(u, i) + 1
    decreases |u| - i
  {
    var t := [c] + u;
    assert i < |u| ==> t[i + 1] == u[i];
    if i < |u| && !IsLineTerminator(u[i]) {
      LineEndShift(c, u, i + 1);
    }
  }

  lemma {:induction false} RemoveQuotesCons(c: char, x: string)
    requires c != '"' && c != '\''
    ensures RemoveQuotes([c] + x) == [c] + RemoveQuotes(x)
  {
    assert ([c] + x)[1..] == x;
  }

  lemma {:induction false} FirstHashCons(c: char, q: string)
    requires c != '#'
    ensures FirstHash([c] + q) == if '#' in q then Some(FirstHash(q).value + 1) else None
  {
    var u := [c] + q;
    assert u[1..] == q;
    assert '#' in u <==> '#' in q;
  }

  lemma {:induction false} CutCommentCons(c: char, q: string)
    requires c != '#'
    ensures CutComment([c] + q) == [c] + CutComment(q)
  {
    if '#' in q {
      CutCommentConsHash(c, q, FirstHash(q).value);
    } else {
      assert '#' !in [c] + q;
    }
  }

  lemma {:induction false} CutCommentConsHash(c: char, q: string, i: nat)
    requires c != '#' && FirstHash(q) == Some(i)
    ensures CutComment([c] + q) == [c] + CutComment(q)
  {
    var le := LineEnd(q, i);
    FirstHashConsSome(c, q, i);
    LineEndShift(c, q, i);
    CutAtShift(c, q, i, le);
    CutAt(q, i);
    ConsCut(c, q, i, le);
  }

  lemma {:induction false} FirstHashConsSome(c: char, q: string, i: nat)
    requires c != '#' && FirstHash(q) == Some(i)
    ensures FirstHash([c] + q) == Some(i + 1)
  {
    FirstHashCons(c, q);
  }

  lemma {:induction false} CutAtShift(c: char, q: string, i: nat, le: nat)
    requires FirstHash([c] + q) == Some(i + 1) && LineEnd([c] + q, i + 1) == le + 1
    ensures CutComment([c] + q) == ([c] + q)[..i + 1] + ([c] + q)[le + 1..]
  {
  }

  lemma {:induction false} CutAt(t: string, i: nat)
    requires FirstHash(t) == Some(i)
    ensures CutComment(t) == t[..i] + t[LineEnd(t, i)..]
  {
  }

  /** Cutting [i, le) out of q, with one character in front. */
  lemma {:induction false} ConsCut(c: char, q: string, i: nat, le: nat)
    requires i <= le <= |q|
    ensures ([c] + q)[..i + 1] + ([c] + q)[le + 1..] == [c] + (q[..i] + q[le..])
  {
    var u := [c] + q;
    assert u[..i + 1] == [c] + q[..i];
    assert u[le + 1..] == q[le..];
  }

  lemma {:induction false} TrimCons(c: char, w: string)
    requires IsJsSpace(c)
    ensures Trim([c] + w) == Trim(w)
  {
    assert ([c] + w)[1..] == w;
    assert TrimStart([c] + w) == TrimStart(w);
  }

  /** A leading whitespace character never reaches the cleaned value. */
  lemma {:induction false} CleanValueLeadingBlank(c: char, x: string)
    requires IsJsSpace(c)
    ensures CleanValue([c] + x) == CleanValue(x)
  {
    RemoveQuotesCons(c, x);
    CutCommentCons(c, RemoveQuotes(x));
    TrimCons(c, CutComment(RemoveQuotes(x)));
  }

  /** Leading whitespace of any length never reaches the cleaned value. */
  lemma {:induction false} CleanValueLeadingSpace(s: string, i: nat, j: nat, m: nat)
    requires i <= j <= m <= |s| && forall k :: i <= k < j ==> IsJsSpace(s[k])
    ensures CleanValue(s[i..m]) == CleanValue(s[j..m])
    decreases j - i
  {
    if i < j {
      assert s[i..m] == [s[i]] + s[i + 1..m];
      CleanValueLeadingBlank(s[i], s[i + 1..m]);
      CleanValueLeadingSpace(s, i + 1, j, m);
    }
  }

  // ---------------------------------------------------------------------------
  // The corrected pair.
  // ---------------------------------------------------------------------------

  /** The text the corrected write produces, around the written value. */
  lemma {:induction false} WrittenText(s: string, key: string, value: string, p: nat)
    requires FindKey(s, key, 0) == Some(p)
    ensures var e := ColonEnd(s, key, p);
      WriteConfigText(s, key, value) == s[..e] + " " + value + s[LineEnd(s, e)..]
  {
  }

  /** A line made of a space and a single-line value ends where the value does. */
  lemma {:induction false} LineOfValue(t: string, i: nat, m: nat, value: string)
    requires i + 1 + |value| == m <= |t| && t[i..m] == [' '] + value
    requires forall k :: 0 <= k < |value| ==> !IsLineTerminator(value[k])
    requires m < |t| ==> IsLineTerminator(t[m])
    ensures LineEnd(t, i) == m
  {
    forall k | i <= k < m
      ensures !IsLineTerminator(t[k])
    {
      assert t[k] == t[i..m][k - i];
      if k > i {
        assert t[k] == value[k - i - 1];
      }
    }
    LineEndAt(t, i, m);
  }

  /** After the corrected write the key's line runs from its colon over the space and the value. */
  lemma {:induction false} WrittenLine(s: string, t: string, key: string, value: string, p: nat, e: nat)
    requires PlainKey(key) && FindKey(s, key, 0) == Some(p) && e == ColonEnd(s, key, p)
    requires forall k :: 0 <= k < |value| ==> !IsLineTerminator(value[k])
    requires t == s[..e] + " " + value + s[LineEnd(s, e)..]
    ensures FindKey(t, key, 0) == Some(p) && ColonEnd(t, key, p) == e
    ensures e + 1 + |value| <= |t| && LineEnd(t, e) == e + 1 + |value|
    ensures t[e..e + 1 + |value|] == [' '] + value
  {
    var le := LineEnd(s, e);
    var m := e + 1 + |value|;
    WrittenParts(s[..e], value, s[le..]);
    assert |s[..e]| == e;
    FindKeyStable(s, t, key);
    if m < |t| {
      assert s[le..][0] == s[le];
    }
    LineOfValue(t, e, m, value);
  }

  /** The pieces of a written line `x + " " + v + y`. */
  lemma {:induction false} WrittenParts(x: string, v: string, y: string)
    ensures var t, m := x + " " + v + y, |x| + 1 + |v|;
      && |t| == m + |y| && t[..|x|] == x && t[|x|..m] == [' '] + v
      && (|y| > 0 ==> t[m] == y[0])
  {
  }

  /** Writing a single-line value and reading the key back gives the value as reading cleans it. */
  lemma {:induction false} WriteThenRead(s: string, key: string, value: string)
    requires PlainKey(key) && FindKey(s, key, 0).Some?
    requires forall k :: 0 <= k < |value| ==> !IsLineTerminator(value[k])
    ensures ReadConfigText(WriteConfigText(s, key, value), key) == CleanValue(value)
  {
    var p := FindKey(s, key, 0).value;
    var e := ColonEnd(s, key, p);
    var t := WriteConfigText(s, key, value);
    WrittenText(s, key, value, p);
    WrittenLine(s, t, key, value, p, e);
    CleanValueLeadingBlank(' ', value);
  }

  /** Writing a key that has no line leaves the text as it is. */
  lemma {:induction false} WriteMissingKey(s: string, key: string, value: string)
    requires FindKey(s, key, 0).None?
    ensures WriteConfigText(s, key, value) == s && ReadConfigText(s, key) == ""
  {
  }

  /** Writing keeps every line after the key's line: the text from the end of that line on is unchanged. */
  lemma {:induction false} WriteKeepsFollowingLines(s: string, key: string, value: string)
    requires FindKey(s, key, 0).Some?
    ensures var e := ColonEnd(s, key, FindKey(s, key, 0).value);
      EndsWith(WriteConfigText(s, key, value), s[LineEnd(s, e)..])
      && StartsWith(WriteConfigText(s, key, value), s[..e])
  {
    var e := ColonEnd(s, key, FindKey(s, key, 0).value);
    var t := WriteConfigText(s, key, value);
    assert t == s[..e] + " " + value + s[LineEnd(s, e)..];
  }

  // ---------------------------------------------------------------------------
  // Writing one key and reading another.
  // ---------------------------------------------------------------------------

  /** Two texts that agree up to n end a line alike while the scan stays below n. */
  lemma {:induction false} LineEndAgree(s: string, t: string, i: nat, n: nat)
    requires i <= n <= |s| && n <= |t| && s[..n] == t[..n] && LineEnd(s, i) < n
    ensures LineEnd(t, i) == LineEnd(s, i)
    decreases |s| - i
  {
    assert s[i] == s[..n][i] == t[..n][i] == t[i];
    if !IsLineTerminator(s[i]) {
      LineEndAgree(s, t, i + 1, n);
    }
  }

  /** The read of a key depends only on the text up to and including the end of the key's line. */
  lemma {:induction false} ReadThroughLine(s: string, t: string, key: string, m: nat)
    requires PlainKey(key) && FindKey(s, key, 0).Some?
    requires LineEnd(s, ColonEnd(s, key, FindKey(s, key, 0).value)) < m <= |s|
    requires m <= |t| && s[..m] == t[..m]
    ensures ReadConfigText(t, key) == ReadConfigText(s, key)
  {
    var p := FindKey(s, key, 0).value;
    var e := ColonEnd(s, key, p);
    var le := LineEnd(s, e);
    SliceOfAgreeingPrefix(s, t, 0, e, m);
    assert s[..e] == s[0..e] && t[..e] == t[0..e];
    FindKeyStable(s, t, key);
    LineEndAgree(s, t, e, m);
    var v := s[e..le];
    SliceOfAgreeingPrefix(s, t, e, le, m);
    ReadConfigTextAt(s, key, p, e, le, v);
    ReadConfigTextAt(t, key, p, e, le, v);
  }

  /** Writing a key whose line comes later leaves the read of an earlier key as it was. */
  lemma {:induction false} WriteLaterKeepsEarlierRead(s: string, k1: string, k2: string, value: string)
    requires PlainKey(k1) && PlainKey(k2) && FindKey(s, k1, 0).Some? && FindKey(s, k2, 0).Some?
    requires LineEnd(s, ColonEnd(s, k1, FindKey(s, k1, 0).value)) < FindKey(s, k2, 0).value
    ensures ReadConfigText(WriteConfigText(s, k2, value), k1) == ReadConfigText(s, k1)
  {
    var p2 := FindKey(s, k2, 0).value;
    var e2 := ColonEnd(s, k2, p2);
    var t := WriteConfigText(s, k2, value);
    WrittenText(s, k2, value, p2);
    WrittenParts(s[..e2], value, s[LineEnd(s, e2)..]);
    assert |s[..e2]| == e2;
    ReadThroughLine(s, t, k1, e2);
  }

  /** A plain key followed by its colon cannot start where a colon falls inside the key. */
  lemma {:induction false} ColonInsideKey(w: string, key: string, o: nat)
    requires PlainKey(key) && o < |key| && o < |w| && w[o] == ':'
    ensures !StartsWith(w, key + ":")
  {
  }

  /** Two texts that agree up to e agree on every slice below e. */
  lemma {:induction false} SliceOfAgreeingPrefix(s: string, t: string, i: nat, j: nat, e: nat)
    requires i <= j <= e <= |s| && e <= |t| && s[..e] == t[..e]
    ensures s[i..j] == t[i..j]
  {
    forall k | 0 <= k < j - i ensures s[i..j][k] == t[i..j][k] {
      assert s[..e][i + k] == t[..e][i + k];
    }
  }

  /** Two texts that agree up to a colon at e - 1 start a plain key line alike at any j before it. */
  lemma {:induction false} KeyWindowAgree(s: string, t: string, key: string, j: nat, e: nat)
    requires PlainKey(key) && j < e <= |s| && e <= |t| && s[..e] == t[..e] && s[e - 1] == ':'
    ensures StartsWith(s[j..], key + ":") <==> StartsWith(t[j..], key + ":")
  {
    var n := |key| + 1;
    if j + n <= e {
      SliceOfAgreeingPrefix(s, t, j, j + n, e);
      assert s[j..][..n] == s[j..j + n];
      assert t[j..][..n] == t[j..j + n];
    } else {
      var o := e - 1 - j;
      assert t[e - 1] == s[..e][e - 1];
      ColonInsideKey(s[j..], key, o);
      ColonInsideKey(t[j..], key, o);
    }
  }

  /** Up to the colon of a matched key line, the line of any plain key matches alike in two texts that agree there. */
  lemma {:induction false} KeyAtBeforeColon(s: string, t: string, k1: string, p1: nat, k2: string, q: nat)
    requires PlainKey(k1) && PlainKey(k2) && KeyAt(s, k1, p1)
    requires q <= ColonEnd(s, k1, p1) <= |t| && s[..ColonEnd(s, k1, p1)] == t[..ColonEnd(s, k1, p1)]
    ensures KeyAt(t, k2, q) <==> KeyAt(s, k2, q)
  {
    var e1 := ColonEnd(s, k1, p1);
    var sp := SkipSpace(s, p1);
    PlainKeyStart(s, k1, p1);
    assert s[sp..][..|k1| + 1] == k1 + ":";
    if q > 0 {
      assert s[q - 1] == t[q - 1] by {
        assert s[q - 1] == s[..e1][q - 1];
        assert t[q - 1] == t[..e1][q - 1];
      }
    }
    if q > sp {
      assert s[q - 1] == (k1 + ":")[q - 1 - sp];
    } else {
      SkipSpaceBound(s, q, sp);
      SkipSpaceAgree(s, t, q, e1);
      assert s[e1 - 1] == (k1 + ":")[|k1|];
      KeyWindowAgree(s, t, k2, SkipSpace(s, q), e1);
    }
  }

  /** Past its first character, a tail matches key lines as it does on its own, whatever precedes it. */
  lemma {:induction false} KeyAtInTail(h: string, b: string, key: string, i: nat)
    requires 1 <= i <= |b|
    ensures KeyAt(h + b, key, |h| + i) <==> KeyAt(b, key, i)
    ensures KeyAt(b, key, i) ==> ColonEnd(h + b, key, |h| + i) == |h| + ColonEnd(b, key, i)
  {
    var s := h + b;
    ScanShift(h, b, i);
    var j := SkipSpace(b, i);
    assert s[|h| + i - 1] == b[i - 1];
    assert s[|h| + j..] == b[j..];
  }

  /** The leftmost match is the one with no match before it. */
  lemma {:induction false} FindKeyIs(s: string, key: string, p: nat)
    requires p <= |s| && KeyAt(s, key, p)
    requires forall q :: 0 <= q < p ==> !KeyAt(s, key, q)
    ensures FindKey(s, key, 0) == Some(p)
  {
  }

  /** Inside the written line after the colon no line starts. */
  lemma {:induction false} NoLineStartInValue(t: string, u: string, e: nat, value: string, q: nat)
    requires SingleLine(value) && |u| == e + 1 + |value| && u[e..] == " " + value
    requires e < q <= |u| <= |t| && t[..|u|] == u
    ensures !LineStart(t, q)
  {
    assert t[q - 1] == u[q - 1];
    assert u[q - 1] == (" " + value)[q - 1 - e];
    if q - 1 > e {
      assert (" " + value)[q - 1 - e] == value[q - 2 - e];
    }
  }

  /** No line of k2 matches up to the colon of an earlier k1 line in a text that agrees with s there. */
  lemma {:induction false} NoLaterKeyUpToColon(s: string, t: string, k1: string, k2: string, p1: nat, p2: nat)
    requires PlainKey(k1) && PlainKey(k2)
    requires FindKey(s, k1, 0) == Some(p1) && FindKey(s, k2, 0) == Some(p2)
    requires ColonEnd(s, k1, p1) < p2 && ColonEnd(s, k1, p1) <= |t|
    requires s[..ColonEnd(s, k1, p1)] == t[..ColonEnd(s, k1, p1)]
    ensures forall q :: 0 <= q <= ColonEnd(s, k1, p1) ==> !KeyAt(t, k2, q)
  {
    forall q | 0 <= q <= ColonEnd(s, k1, p1) ensures !KeyAt(t, k2, q) {
      KeyAtBeforeColon(s, t, k1, p1, k2, q);
    }
  }

  /** No line of any key matches inside the value a write put after the colon. */
  lemma {:induction false} NoKeyInValue(t: string, u: string, e: nat, value: string, key: string)
    requires SingleLine(value) && |u| == e + 1 + |value| && u[e..] == " " + value
    requires |u| <= |t| && t[..|u|] == u
    ensures forall q :: e < q <= |u| ==> !KeyAt(t, key, q)
  {
    forall q | e < q <= |u| ensures !KeyAt(t, key, q) {
      NoLineStartInValue(t, u, e, value, q);
    }
  }

  /** Key lines in a tail match in the whole text as they do in the tail alone... */
  lemma {:induction false} NoKeyInTailFrom(h: string, b: string, key: string, i: nat)
    requires i <= |b| && forall q :: |h| < q < |h| + i ==> !KeyAt(h + b, key, q)
    ensures forall q :: 0 < q < i ==> !KeyAt(b, key, q)
  {
    forall q | 0 < q < i ensures !KeyAt(b, key, q) {
      KeyAtInTail(h, b, key, q);
    }
  }

  /** ... and the other way round. */
  lemma {:induction false} NoKeyInTailOnto(h: string, b: string, key: string, i: nat)
    requires i <= |b| && forall q :: 0 < q < i ==> !KeyAt(b, key, q)
    ensures forall q :: |h| < q < |h| + i ==> !KeyAt(h + b, key, q)
  {
    forall q | |h| < q < |h| + i ensures !KeyAt(h + b, key, q) {
      KeyAtInTail(h, b, key, q - |h|);
    }
  }

  /** After a write of an earlier key k1 that keeps the tail b, the first k2 line is the old one, moved by the change in length. */
  lemma {:induction false} LaterKeyMoves(s: string, t: string, h: string, u: string, b: string, k1: string, k2: string, value: string, p1: nat, p2: nat, e1: nat)
    requires PlainKey(k1) && PlainKey(k2) && SingleLine(value)
    requires FindKey(s, k1, 0) == Some(p1) && FindKey(s, k2, 0) == Some(p2)
    requires e1 == ColonEnd(s, k1, p1) && e1 <= |h| < p2
    requires s == h + b && u == s[..e1] + " " + value && t == u + b
    ensures FindKey(t, k2, 0) == Some(|u| + (p2 - |h|))
  {
    PartsOfWrite(s[..e1], value, b);
    NoKeyThroughValue(s, t, u, k1, k2, value, p1, p2, e1);
    FindKeyInTail(s, t, h, u, b, k2, p2);
  }

  /** Up to the end of the written value the later key does not occur. */
  lemma {:induction false} NoKeyThroughValue(s: string, t: string, u: string, k1: string, k2: string, value: string, p1: nat, p2: nat, e1: nat)
    requires PlainKey(k1) && PlainKey(k2) && SingleLine(value)
    requires FindKey(s, k1, 0) == Some(p1) && FindKey(s, k2, 0) == Some(p2)
    requires e1 == ColonEnd(s, k1, p1) && e1 < p2
    requires u == s[..e1] + " " + value && |u| <= |t| && t[..|u|] == u
    ensures forall q :: 0 <= q < |u| + 1 ==> !KeyAt(t, k2, q)
  {
    PartsOfWrite(s[..e1], value, []);
    SliceOfAgreeingPrefix(t, u, 0, e1, |u|);
    assert t[..e1] == s[..e1];
    NoLaterKeyUpToColon(s, t, k1, k2, p1, p2);
    NoKeyInValue(t, u, e1, value, k2);
    NoKeyInRanges(t, k2, e1, |u|, |u| + 1);
  }

  /**
   * A key first found inside `b` is still first found there after the
   * text before `b` is replaced by one in which the key does not occur.
   */
  lemma {:induction false} FindKeyInTail(s: string, t: string, h1: string, h2: string, b: string, key: string, p: nat)
    requires s == h1 + b && t == h2 + b
    requires |h1| < p && FindKey(s, key, 0) == Some(p)
    requires forall q :: 0 <= q < |h2| + 1 ==> !KeyAt(t, key, q)
    ensures FindKey(t, key, 0) == Some(|h2| + (p - |h1|))
  {
    var i := p - |h1|;
    FirstKeyOfTail(h1, b, key, p);
    FirstKeyOntoTail(h2, b, key, i);
  }

  /** The first key line of a text, lying past the head, is the tail's first one past its first character. */
  lemma {:induction false} FirstKeyOfTail(h: string, b: string, key: string, p: nat)
    requires |h| < p && FindKey(h + b, key, 0) == Some(p)
    ensures 1 <= p - |h| <= |b| && KeyAt(b, key, p - |h|)
    ensures forall q :: 0 < q < p - |h| ==> !KeyAt(b, key, q)
  {
    var i := p - |h|;
    assert |h| + i == p;
    KeyAtInTail(h, b, key, i);
    NoKeyInTailFrom(h, b, key, i);
  }

  /** A tail's first key line past its first character is the first of the whole text when the head holds none. */
  lemma {:induction false} FirstKeyOntoTail(h: string, b: string, key: string, i: nat)
    requires 1 <= i <= |b| && KeyAt(b, key, i)
    requires forall q :: 0 < q < i ==> !KeyAt(b, key, q)
    requires forall q :: 0 <= q < |h| + 1 ==> !KeyAt(h + b, key, q)
    ensures FindKey(h + b, key, 0) == Some(|h| + i)
  {
    KeyAtInTail(h, b, key, i);
    NoKeyInTailOnto(h, b, key, i);
    NoKeyInRanges(h + b, key, 0, |h|, |h| + i);
    FindKeyIs(h + b, key, |h| + i);
  }

  /** Three adjacent key-free ranges make one. */
  lemma {:induction false} NoKeyInRanges(t: string, key: string, a: nat, c: nat, p: nat)
    requires a <= c <= p
    requires forall q :: 0 <= q <= a ==> !KeyAt(t, key, q)
    requires forall q :: a < q <= c ==> !KeyAt(t, key, q)
    requires forall q :: c < q < p ==> !KeyAt(t, key, q)
    ensures forall q :: 0 <= q < p ==> !KeyAt(t, key, q)
  {
  }

  /** The pieces of a written text `x + " " + v + b`. */
  lemma {:induction false} PartsOfWrite(x: string, v: string, b: string)
    ensures var u := x + " " + v;
      && (u + b)[..|x|] == x && (u + b)[..|u|] == u && u[|x|..] == " " + v
  {
  }

  lemma {:induction false} SliceOfTail(h: string, b: string, i: nat, j: nat)
    requires i <= j <= |b|
    ensures (h + b)[|h| + i..|h| + j] == b[i..j]
  {
  }

  /** Where the scans stop on a key line that lies in a tail, counted in the whole text. */
  lemma {:induction false} TailLine(h: string, b: string, key: string, i: nat, c: nat, le: nat)
    requires 1 <= i <= |b| && KeyAt(b, key, i)
    requires c == ColonEnd(b, key, i) && le == LineEnd(b, c)
    ensures KeyAt(h + b, key, |h| + i)
    ensures ColonEnd(h + b, key, |h| + i) == |h| + c
    ensures LineEnd(h + b, |h| + c) == |h| + le
    ensures (h + b)[|h| + c..|h| + le] == b[c..le]
  {
    KeyAtInTail(h, b, key, i);
    ScanShift(h, b, c);
    SliceOfTail(h, b, c, le);
  }

  /** The text after the colon of a key line at i, to the end of its line. */
  function LineValue(b: string, key: string, i: nat): (r: string)
    requires KeyAt(b, key, i)
    ensures |r| <= |b|
  {
    var c := ColonEnd(b, key, i);
    b[c..LineEnd(b, c)]
  }

  /** When the first key line lies in a tail, at i there, the read returns the value on that line of the tail. */
  lemma {:induction false} ReadInTail(h: string, b: string, key: string, p: nat, i: nat)
    requires |h| < p && p == |h| + i && FindKey(h + b, key, 0) == Some(p)
    ensures 1 <= i <= |b| && KeyAt(b, key, i)
    ensures ReadConfigText(h + b, key) == CleanValue(LineValue(b, key, i))
  {
    FirstKeyOfTail(h, b, key, p);
    assert p - |h| == i;
    LineValueInTail(h, b, key, i);
    ReadAtFound(h + b, key, p);
  }

  /** The read returns the cleaned rest of the first key line. */
  lemma {:induction false} ReadAtFound(s: string, key: string, p: nat)
    requires FindKey(s, key, 0) == Some(p)
    ensures ReadConfigText(s, key) == CleanValue(LineValue(s, key, p))
  {
  }

  /** A key line in a tail has the same value whatever precedes the tail. */
  lemma {:induction false} LineValueInTail(h: string, b: string, key: string, i: nat)
    requires 1 <= i <= |b| && KeyAt(b, key, i)
    ensures KeyAt(h + b, key, |h| + i) && LineValue(h + b, key, |h| + i) == LineValue(b, key, i)
  {
    var c := ColonEnd(b, key, i);
    TailLine(h, b, key, i, c, LineEnd(b, c));
  }

  /** Two texts that share the tail holding the first key line read that key alike. */
  lemma {:induction false} SameReadInTail(s: string, t: string, h1: string, h2: string, b: string, key: string, p: nat)
    requires s == h1 + b && t == h2 + b && |h1| < p
    requires FindKey(s, key, 0) == Some(p) && FindKey(t, key, 0) == Some(|h2| + (p - |h1|))
    ensures ReadConfigText(t, key) == ReadConfigText(s, key)
  {
    var i := p - |h1|;
    var q := |h2| + (p - |h1|);
    ReadInTail(h2, b, key, q, i);
    ReadInTail(h1, b, key, p, i);
  }

  /**
   * Writing a key whose line comes earlier leaves the read of a later key as it was, and
   * the later key's line still comes after the earlier key's line.
   */
  lemma {:induction false} WriteEarlierKeepsLaterRead(s: string, k1: string, k2: string, value: string)
    requires PlainKey(k1) && PlainKey(k2) && SingleLine(value)
    requires FindKey(s, k1, 0).Some? && FindKey(s, k2, 0).Some?
    requires LineEnd(s, ColonEnd(s, k1, FindKey(s, k1, 0).value)) < FindKey(s, k2, 0).value
    ensures var t := WriteConfigText(s, k1, value);
      && FindKey(t, k1, 0).Some? && FindKey(t, k2, 0).Some?
      && LineEnd(t, ColonEnd(t, k1, FindKey(t, k1, 0).value)) < FindKey(t, k2, 0).value
      && ReadConfigText(t, k2) == ReadConfigText(s, k2)
  {
    var p1 := FindKey(s, k1, 0).value;
    var p2 := FindKey(s, k2, 0).value;
    var e1 := ColonEnd(s, k1, p1);
    var n := LineEnd(s, e1);
    var t := WriteConfigText(s, k1, value);
    var h, u, b := s[..n], s[..e1] + " " + value, s[n..];
    WrittenText(s, k1, value, p1);
    WrittenLine(s, t, k1, value, p1, e1);
    SplitAt(s, n);
    LaterKeyMoves(s, t, h, u, b, k1, k2, value, p1, p2, e1);
    SameReadInTail(s, t, h, u, b, k2, p2);
  }

  /** A text is its prefix followed by its suffix. */
  lemma {:induction false} SplitAt(s: string, n: nat)
    requires n <= |s|
    ensures s == s[..n] + s[n..]
  {
  }

  // ---------------------------------------------------------------------------
  // Where the expressions as written go wrong.
  // ---------------------------------------------------------------------------

  /** When the key's line holds something after the colon, the expressions as written agree with the corrected ones. */
  lemma {:induction false} AsWrittenAgreesOnFilledLine(s: string, key: string, value: string)
    requires FindKey(s, key, 0).Some?
    requires var e := ColonEnd(s, key, FindKey(s, key, 0).value);
      exists k :: e <= k < LineEnd(s, e) && !IsJsSpace(s[k])
    ensures ReadAsWritten(s, key) == ReadConfigText(s, key)
    ensures '$' !in value ==> WriteAsWritten(s, key, value) == WriteConfigText(s, key, value)
  {
    var p := FindKey(s, key, 0).value;
    var e := ColonEnd(s, key, p);
    var le := LineEnd(s, e);
    var k :| e <= k < le && !IsJsSpace(s[k]);
    SkipSpaceBound(s, e, k);
    var v := SkipSpace(s, e);
    LineEndAt(s, v, le);
    CleanValueLeadingSpace(s, e, v, le);
    WriteAsWrittenAt(s, key, value, p, e, le, s[..e], s[le..]);
  }

  /** A whitespace scan ends at the first character that is not whitespace. */
  lemma {:induction false} SkipSpaceAt(t: string, i: nat, m: nat)
    requires i <= m <= |t|
    requires forall k :: i <= k < m ==> IsJsSpace(t[k])
    requires m < |t| ==> !IsJsSpace(t[m])
    ensures SkipSpace(t, i) == m
    decreases m - i
  {
    if i < m {
      SkipSpaceAt(t, i + 1, m);
    }
  }

  /** Blanks on a line: whitespace that does not end the line. */
  predicate Blanks(t: string) {
    forall k :: 0 <= k < |t| ==> IsJsSpace(t[k]) && !IsLineTerminator(t[k])
  }

  /** A line of its own: no line terminator in it. */
  predicate SingleLine(t: string) {
    forall k :: 0 <= k < |t| ==> !IsLineTerminator(t[k])
  }

  /** The text the counterexamples are made of: a key line with nothing after the colon, then another line. */
  function EmptyKeyLine(indent: string, key: string, blank: string, next: string, rest: string): string {
    (indent + key + ":") + (blank + "\n" + next + rest)
  }

  lemma {:induction false} SkipOverBlanks(s: string, i: nat, m: nat, seg: string)
    requires i <= m <= |s| && s[i..m] == seg && forall k :: 0 <= k < |seg| ==> IsJsSpace(seg[k])
    requires m < |s| ==> !IsJsSpace(s[m])
    ensures SkipSpace(s, i) == m
  {
    forall k | i <= k < m ensures IsJsSpace(s[k]) {
      assert s[k] == seg[k - i];
    }
    SkipSpaceAt(s, i, m);
  }

  lemma {:induction false} LineOver(s: string, i: nat, m: nat, seg: string)
    requires i <= m <= |s| && s[i..m] == seg && SingleLine(seg)
    requires m < |s| ==> IsLineTerminator(s[m])
    ensures LineEnd(s, i) == m
  {
    forall k | i <= k < m ensures !IsLineTerminator(s[k]) {
      assert s[k] == seg[k - i];
    }
    LineEndAt(s, i, m);
  }

  /** A text that opens with an indented key line matches it at offset 0. */
  lemma {:induction false} KeyLineFirst(s: string, indent: string, key: string)
    requires PlainKey(key) && Blanks(indent) && StartsWith(s, indent + key + ":")
    ensures FindKey(s, key, 0) == Some(0) && ColonEnd(s, key, 0) == |indent| + |key| + 1
  {
    var w := |indent|;
    var line := indent + key + ":";
    assert s[..|line|] == line;
    assert s[..w] == line[..w] == indent;
    assert s[w] == line[w] == key[0];
    SkipOverBlanks(s, 0, w, indent);
    assert s[w..][..|key| + 1] == key + ":";
    assert KeyAt(s, key, 0);
  }

  /** Scans in a suffix run as they do in the suffix alone. */
  lemma {:induction false} ScanShift(h: string, t: string, i: nat)
    requires i <= |t|
    ensures SkipSpace(h + t, |h| + i) == |h| + SkipSpace(t, i)
    ensures LineEnd(h + t, |h| + i) == |h| + LineEnd(t, i)
    decreases |t| - i
  {
    if i < |t| {
      assert (h + t)[|h| + i] == t[i];
      ScanShift(h, t, i + 1);
    }
  }

  /** The scans over the part after an empty colon. */
  lemma {:induction false} AfterEmptyColon(blank: string, next: string, rest: string)
    requires Blanks(blank) && SingleLine(next) && |next| > 0 && !IsJsSpace(next[0])
    requires |rest| > 0 ==> IsLineTerminator(rest[0])
    ensures var t := blank + "\n" + next + rest;
      && LineEnd(t, 0) == |blank|
      && SkipSpace(t, 0) == |blank| + 1
      && LineEnd(t, |blank| + 1) == |blank| + 1 + |next|
  {
    var t := blank + "\n" + next + rest;
    var b := |blank|;
    var n := b + 1 + |next|;
    var nl := blank + "\n";
    assert t[0..b] == blank && t[b] == '\n';
    assert SingleLine(blank) by {
      forall k | 0 <= k < b ensures !IsLineTerminator(blank[k]) {
      }
    }
    LineOver(t, 0, b, blank);
    assert t[0..b + 1] == nl;
    forall k | 0 <= k < |nl| ensures IsJsSpace(nl[k]) {
      if k < b {
        assert nl[k] == blank[k];
      }
    }
    assert t[b + 1] == next[0];
    SkipOverBlanks(t, 0, b + 1, nl);
    assert t[b + 1..n] == next;
    if n < |t| {
      assert t[n] == rest[0];
    }
    LineOver(t, b + 1, n, next);
  }

  lemma {:induction false} KeyLineOpens(indent: string, key: string, t: string)
    requires Blanks(indent) && PlainKey(key)
    ensures var s := indent + key + ":" + t;
      FindKey(s, key, 0) == Some(0) && ColonEnd(s, key, 0) == |indent| + |key| + 1
  {
    var head := indent + key + ":";
    var s := head + t;
    assert s[..|head|] == head;
    KeyLineFirst(s, indent, key);
  }

  lemma {:induction false} ScansAfterEmptyColon(head: string, blank: string, next: string, rest: string)
    requires Blanks(blank) && SingleLine(next) && |next| > 0 && !IsJsSpace(next[0])
    requires |rest| > 0 ==> IsLineTerminator(rest[0])
    ensures var s := head + (blank + "\n" + next + rest);
      var e := |head|;
      && LineEnd(s, e) == e + |blank|
      && SkipSpace(s, e) == e + |blank| + 1
      && LineEnd(s, e + |blank| + 1) == e + |blank| + 1 + |next|
  {
    var t := blank + "\n" + next + rest;
    AfterEmptyColon(blank, next, rest);
    ScanShift(head, t, 0);
    ScanShift(head, t, |blank| + 1);
  }

  /** Where the scans over such a text stop. */
  lemma {:induction false} EmptyKeyLineScans(indent: string, key: string, blank: string, next: string, rest: string)
    requires Blanks(indent) && PlainKey(key) && Blanks(blank)
    requires SingleLine(next) && |next| > 0 && !IsJsSpace(next[0])
    requires |rest| > 0 ==> IsLineTerminator(rest[0])
    ensures var s := EmptyKeyLine(indent, key, blank, next, rest);
      var e := |indent| + |key| + 1;
      && FindKey(s, key, 0) == Some(0)
      && ColonEnd(s, key, 0) == e
      && LineEnd(s, e) == e + |blank|
      && SkipSpace(s, e) == e + |blank| + 1
      && LineEnd(s, e + |blank| + 1) == e + |blank| + 1 + |next|
  {
    var head := indent + key + ":";
    var t := blank + "\n" + next + rest;
    KeyLineOpens(indent, key, t);
    ScansAfterEmptyColon(head, blank, next, rest);
  }

  /** The pieces of an empty key line followed by another line, at the offsets the scans give. */
  lemma {:induction false} EmptyKeyLineParts(indent: string, key: string, blank: string, next: string, rest: string)
    ensures var s := EmptyKeyLine(indent, key, blank, next, rest);
      var e := |indent| + |key| + 1;
      var v := e + |blank| + 1;
      && |s| == v + |next| + |rest|
      && s[..e] == indent + key + ":"
      && s[e..e + |blank|] == blank
      && s[e + |blank|..] == "\n" + next + rest
      && s[v..v + |next|] == next
      && s[v + |next|..] == rest
  {
  }

  /**
   * The expressions as written read the line after an empty key line as the key's value,
   * and writing the key swallows that line; the corrected pair reads an empty value and
   * keeps the line.
   */
  /** Whitespace alone cleans to the empty value. */
  lemma {:induction false} CleanBlanks(blank: string)
    requires Blanks(blank)
    ensures CleanValue(blank) == ""
  {
    assert blank[0..|blank|] == blank;
    CleanValueLeadingSpace(blank, 0, |blank|, |blank|);
    assert blank[|blank|..|blank|] == "";
    assert RemoveQuotes("") == "";
    assert CutComment("") == "";
  }

  /** What the read as written returns once the scans are known. */
  lemma {:induction false} ReadAsWrittenAt(s: string, key: string, p: nat, v: nat, m: nat, value: string)
    requires FindKey(s, key, 0) == Some(p)
    requires SkipSpace(s, ColonEnd(s, key, p)) == v && LineEnd(s, v) == m
    requires v <= m <= |s| && s[v..m] == value
    ensures ReadAsWritten(s, key) == CleanValue(value)
  {
  }

  /** What the corrected read returns once the scans are known. */
  lemma {:induction false} ReadConfigTextAt(s: string, key: string, p: nat, e: nat, m: nat, value: string)
    requires FindKey(s, key, 0) == Some(p)
    requires ColonEnd(s, key, p) == e && LineEnd(s, e) == m
    requires e <= m <= |s| && s[e..m] == value
    ensures ReadConfigText(s, key) == CleanValue(value)
  {
  }

  lemma {:induction false} AsWrittenReadsNextLine(indent: string, key: string, blank: string, next: string, rest: string)
    requires Blanks(indent) && PlainKey(key) && Blanks(blank)
    requires SingleLine(next) && |next| > 0 && !IsJsSpace(next[0])
    requires |rest| > 0 ==> IsLineTerminator(rest[0])
    ensures ReadAsWritten(EmptyKeyLine(indent, key, blank, next, rest), key) == CleanValue(next)
  {
    var s := EmptyKeyLine(indent, key, blank, next, rest);
    var v := |indent| + |key| + 1 + |blank| + 1;
    EmptyKeyLineParts(indent, key, blank, next, rest);
    EmptyKeyLineScans(indent, key, blank, next, rest);
    ReadAsWrittenAt(s, key, 0, v, v + |next|, next);
  }

  lemma {:induction false} CorrectedReadsEmptyValue(indent: string, key: string, blank: string, next: string, rest: string)
    requires Blanks(indent) && PlainKey(key) && Blanks(blank)
    requires SingleLine(next) && |next| > 0 && !IsJsSpace(next[0])
    requires |rest| > 0 ==> IsLineTerminator(rest[0])
    ensures ReadConfigText(EmptyKeyLine(indent, key, blank, next, rest), key) == ""
  {
    var h := indent + key + ":";
    var s := EmptyKeyLine(indent, key, blank, next, rest);
    var e := |indent| + |key| + 1;
    EmptyKeyLineParts(indent, key, blank, next, rest);
    EmptyKeyLineScans(indent, key, blank, next, rest);
    ReadConfigTextAt(s, key, 0, e, e + |blank|, blank);
    CleanBlanks(blank);
  }

  /** What the write as written produces once the scans are known. */
  lemma {:induction false} WriteAsWrittenAt(s: string, key: string, value: string, p: nat, e: nat, m: nat, head: string, tail: string)
    requires FindKey(s, key, 0) == Some(p)
    requires ColonEnd(s, key, p) == e && LineEnd(s, SkipSpace(s, e)) == m
    requires e <= m <= |s| && s[..e] == head && s[m..] == tail
    ensures p <= e && WriteAsWritten(s, key, value) == head + " " + Substitute(value, s[..p], s[p..m], tail, [s[p..e]]) + tail
  {
    assert p <= SkipSpace(s, p) <= e;
    var before, matched, group := s[..p], s[p..m], s[p..e];
    var w := Substitute(value, before, matched, tail, [group]);
    SubstituteFirstCapture(value, before, matched, tail, group);
    assert WriteAsWritten(s, key, value) == before + Substitute("$1 " + value, before, matched, tail, [group]) + tail;
    PrefixPieces(s, p, e);
    Regroup(before, group, " ", w, tail);
  }

  /** A prefix is the shorter prefix followed by the piece between them. */
  lemma {:induction false} PrefixPieces(s: string, p: nat, e: nat)
    requires p <= e <= |s|
    ensures s[..p] + s[p..e] == s[..e]
  {
  }

  lemma {:induction false} Regroup(a: string, b: string, c: string, d: string, t: string)
    ensures a + (b + c + d) + t == (a + b) + c + d + t
  {
  }

  /** What the corrected write produces once the scans are known. */
  lemma {:induction false} WriteConfigTextAt(s: string, key: string, value: string, p: nat, e: nat, m: nat, head: string, tail: string)
    requires FindKey(s, key, 0) == Some(p)
    requires ColonEnd(s, key, p) == e && LineEnd(s, e) == m
    requires e <= m <= |s| && s[..e] == head && s[m..] == tail
    ensures WriteConfigText(s, key, value) == head + " " + value + tail
  {
  }

  lemma {:induction false} AsWrittenWriteSwallowsNextLine(indent: string, key: string, blank: string, next: string, rest: string, value: string)
    requires Blanks(indent) && PlainKey(key) && Blanks(blank)
    requires SingleLine(next) && |next| > 0 && !IsJsSpace(next[0])
    requires |rest| > 0 ==> IsLineTerminator(rest[0])
    ensures var h := indent + key + ":";
      WriteAsWritten(EmptyKeyLine(indent, key, blank, next, rest), key, value)
      == h + " " + Substitute(value, "", h + (blank + "\n" + next), rest, [h]) + rest
  {
    var h := indent + key + ":";
    var a := h + (blank + "\n" + next);
    var s := EmptyKeyLine(indent, key, blank, next, rest);
    EmptyKeyLineScans(indent, key, blank, next, rest);
    EmptyKeyLineSplit(indent, key, blank, next, rest);
    WriteAsWrittenAt(s, key, value, 0, |h|, |a|, h, rest);
  }

  /** An empty key line followed by another line, split where the write as written cuts it. */
  lemma {:induction false} EmptyKeyLineSplit(indent: string, key: string, blank: string, next: string, rest: string)
    ensures var h := indent + key + ":";
      var a := h + (blank + "\n" + next);
      var s := EmptyKeyLine(indent, key, blank, next, rest);
      && |h| == |indent| + |key| + 1 && |a| == |h| + |blank| + 1 + |next|
      && s == a + rest && s[..|h|] == h && s[|a|..] == rest
      && s[..0] == "" && s[0..|a|] == a && s[0..|h|] == h
  {
    var h := indent + key + ":";
    var a := h + (blank + "\n" + next);
    assert blank + "\n" + next + rest == (blank + "\n" + next) + rest;
    Regroup2(h, blank + "\n" + next, rest);
    SplitPieces(h, blank + "\n" + next, rest);
  }

  lemma {:induction false} Regroup2(a: string, b: string, t: string)
    ensures a + (b + t) == (a + b) + t
  {
  }

  lemma {:induction false} SplitPieces(h: string, b: string, t: string)
    ensures (h + b + t)[..|h|] == h && (h + b + t)[|h + b|..] == t
    ensures (h + b + t)[..0] == "" && (h + b + t)[0..|h + b|] == h + b && (h + b + t)[0..|h|] == h
  {
  }

  lemma {:induction false} CorrectedWriteKeepsNextLine(indent: string, key: string, blank: string, next: string, rest: string, value: string)
    requires Blanks(indent) && PlainKey(key) && Blanks(blank)
    requires SingleLine(next) && |next| > 0 && !IsJsSpace(next[0])
    requires |rest| > 0 ==> IsLineTerminator(rest[0])
    ensures WriteConfigText(EmptyKeyLine(indent, key, blank, next, rest), key, value)
      == (indent + key + ":") + " " + value + ("\n" + next + rest)
  {
    var h := indent + key + ":";
    var s := EmptyKeyLine(indent, key, blank, next, rest);
    var e := |indent| + |key| + 1;
    var m := e + |blank|;
    EmptyKeyLineParts(indent, key, blank, next, rest);
    EmptyKeyLineScans(indent, key, blank, next, rest);
    assert FindKey(s, key, 0) == Some(0) && ColonEnd(s, key, 0) == e && LineEnd(s, e) == m;
    assert s[..e] == h && s[m..] == "\n" + next + rest;
    WriteConfigTextAt(s, key, value, 0, e, m, h, "\n" + next + rest);
  }

  /** The literal facts the smallest instance needs. */
  lemma {:induction false} SmallestInstance()
    ensures EmptyKeyLine("", "active", "", "b", "") == "active:\nb"
    ensures PlainKey("active") && Blanks("") && SingleLine("b") && !IsJsSpace('b')
    ensures CleanValue("b") == "b"
  {
    assert RemoveQuotes("b") == "b";
    assert CutComment("b") == "b";
    TrimIdentity("b");
  }

  /** The smallest instance, `active:` followed by the line `b`: the read as written returns `b`. */
  lemma {:induction false} AsWrittenReadsB()
    ensures ReadAsWritten("active:\nb", "active") == "b"
  {
    SmallestInstance();
    AsWrittenReadsNextLine("", "active", "", "b", "");
  }

  /** The write as written of `active` drops whatever line follows an empty `active:` line. */
  lemma {:induction false} AsWrittenDropsNextLine(next: string, value: string)
    requires SingleLine(next) && |next| > 0 && !IsJsSpace(next[0])
    ensures WriteAsWritten("active:\n" + next, "active", value)
      == "active:" + " " + Substitute(value, "", "active:\n" + next, "", ["active:"])
  {
    ActiveKeyLine(next);
    AsWrittenWriteSwallowsNextLine("", "active", "", next, "", value);
    assert "active:" + ("" + "\n" + next) == "active:\n" + next;
  }

  /** The literal pieces of an indented-by-nothing `active:` line followed by the line `next`. */
  lemma {:induction false} ActiveKeyLine(next: string)
    ensures PlainKey("active") && Blanks("")
    ensures EmptyKeyLine("", "active", "", next, "") == "active:\n" + next
    ensures "" + "active" + ":" == "active:"
  {
  }

  /** The corrected read returns the empty value. */
  lemma {:induction false} CorrectedReadsEmpty()
    ensures ReadConfigText("active:\nb", "active") == ""
  {
    SmallestInstance();
    CorrectedReadsEmptyValue("", "active", "", "b", "");
  }

  /** The corrected write of `active` keeps that line. */
  lemma {:induction false} CorrectedKeepsNextLine(next: string, value: string)
    requires SingleLine(next) && |next| > 0 && !IsJsSpace(next[0])
    ensures WriteConfigText("active:\n" + next, "active", value) == "active:" + " " + value + ("\n" + next)
  {
    ActiveKeyLine(next);
    CorrectedWriteKeepsNextLine("", "active", "", next, "", value);
  }

  /** The scans over `active: x`: the key opens the text, the value `x` starts after one blank. */
  lemma {:induction false} ActiveFilledLine()
    ensures PlainKey("active")
    ensures FindKey("active: x", "active", 0) == Some(0) && ColonEnd("active: x", "active", 0) == 7
    ensures SkipSpace("active: x", 7) == 8 && LineEnd("active: x", 7) == 9 && LineEnd("active: x", 8) == 9
    ensures "active: x"[..7] == "active:" && "active: x"[9..] == ""
  {
    ActiveKeyLine("b");
    assert "active: x" == "" + "active" + ":" + " x";
    KeyLineOpens("", "active", " x");
    SkipSpaceAt("active: x", 7, 8);
    LineEndAt("active: x", 7, 9);
    LineEndAt("active: x", 8, 9);
  }

  /** The write as written puts the value into a replacement pattern: `$$` onto `active: x` stores one `$`. */
  lemma {:induction false} AsWrittenExpandsDollar()
    ensures WriteAsWritten("active: x", "active", "$$") == "active: $"
  {
    ActiveFilledLine();
    WriteAsWrittenAt("active: x", "active", "$$", 0, 7, 9, "active:", "");
    assert Substitute("$$", "", "active: x", "", ["active:"]) == "$";
  }

  /** The corrected write stores `$$` letter for letter, and it reads back as written. */
  lemma {:induction false} CorrectedKeepsDollar()
    ensures WriteConfigText("active: x", "active", "$$") == "active: $$"
    ensures ReadConfigText("active: $$", "active") == "$$"
  {
    ActiveFilledLine();
    WriteConfigTextAt("active: x", "active", "$$", 0, 7, 9, "active:", "");
    DollarPieces();
    WriteThenRead("active: x", "active", "$$");
  }

  /** The literal facts about `$$` the two lemmas above need. */
  lemma {:induction false} DollarPieces()
    ensures "active:" + " " + "$$" + "" == "active: $$"
    ensures CleanValue("$$") == "$$" && SingleLine("$$")
  {
    assert !IsLineTerminator('$');
    assert RemoveQuotes("$$") == "$$";
    assert CutComment("$$") == "$$";
    TrimIdentity("$$");
  }
}
