/**
 * The string operations of JavaScript and Python that the modelled programs
 * rely on (`includes`, `indexOf`, `split`, `join`, `replace`, `replaceAll`,
 * `trim`, `padStart`, number-to-decimal conversion), written over `seq<char>`,
 * with the facts about them that the rest of the model uses.
 */
module Strings {
  import opened Wrappers

  predicate StartsWith(s: string, p: string) {
    |p| <= |s| && s[..|p|] == p
  }

  /** The UTF-16 code units JavaScript counts for one character: two beyond the Basic Multilingual Plane. */
  function Utf16Units(c: char): (n: nat)
    ensures 1 <= n <= 2
  {
    if c as int >= 0x1_0000 then 2 else 1
  }

  /** JavaScript's `length` of a text: its UTF-16 code units. */
  function Utf16Length(s: string): (n: nat)
    ensures |s| <= n <= 2 * |s|
  {
    if |s| == 0 then 0 else Utf16Units(s[0]) + Utf16Length(s[1..])
  }

  /**
   * The longest prefix of whole characters that fits in `n` code units: `slice(0, n)`, save
   * that a character cut in half is left out whole.
   */
  function Utf16Prefix(s: string, n: nat): (r: string)
    ensures StartsWith(s, r) && Utf16Length(r) <= n
    ensures |r| < |s| ==> Utf16Length(r) + Utf16Units(s[|r|]) > n
    ensures Utf16Length(s) <= n <==> r == s
    decreases |s|
  {
    if |s| == 0 || Utf16Units(s[0]) > n then ""
    else
      var r := [s[0]] + Utf16Prefix(s[1..], n - Utf16Units(s[0]));
      assert r[1..] == Utf16Prefix(s[1..], n - Utf16Units(s[0]));
      assert s == [s[0]] + s[1..];
      r
  }

  predicate EndsWith(s: string, p: string) {
    |p| <= |s| && s[|s| - |p|..] == p
  }

  /** `s.includes(p)` / Python's `p in s`: the empty string occurs everywhere. */
  predicate Contains(s: string, p: string)
    decreases |s|
  {
    StartsWith(s, p) || (|s| > 0 && Contains(s[1..], p))
  }

  /** An occurrence found at any position is an occurrence. */
  lemma {:induction false} ContainsFromOffset(s: string, p: string, i: nat)
    requires i <= |s| && StartsWith(s[i..], p)
    ensures Contains(s, p)
    decreases i
  {
    if i > 0 {
      assert s[1..][i - 1..] == s[i..];
      ContainsFromOffset(s[1..], p, i - 1);
    }
  }

  /** An occurrence in a part is an occurrence in the whole. */
  lemma {:induction false} ContainsInConcat(a: string, b: string, p: string)
    requires Contains(a, p) || Contains(b, p)
    ensures Contains(a + b, p)
    decreases |a|
  {
    if Contains(b, p) && !Contains(a, p) {
      if |a| == 0 {
        assert a + b == b;
      } else {
        assert (a + b)[1..] == a[1..] + b;
        ContainsInConcat(a[1..], b, p);
      }
    } else if StartsWith(a, p) {
      assert (a + b)[..|p|] == a[..|p|];
    } else {
      assert (a + b)[1..] == a[1..] + b;
      ContainsInConcat(a[1..], b, p);
    }
  }

  /** An occurrence of a pattern free of `c` in `a + [c] + b` lies inside `a` or inside `b`. */
  lemma {:induction false} ContainsAcrossSeparator(a: string, c: char, b: string, p: string)
    requires c !in p && Contains(a + [c] + b, p)
    ensures Contains(a, p) || Contains(b, p)
    decreases |a|
  {
    var s := a + [c] + b;
    if StartsWith(s, p) {
      if |p| <= |a| {
        assert s[..|p|] == a[..|p|];
      } else {
        PrefixCharAt(s, p, |a|);
        assert false;
      }
    } else if |a| == 0 {
      assert s[1..] == b;
    } else {
      assert s[1..] == a[1..] + [c] + b;
      ContainsAcrossSeparator(a[1..], c, b, p);
    }
  }

  lemma {:induction false} PrefixCharAt(s: string, p: string, k: nat)
    requires StartsWith(s, p) && k < |p|
    ensures p[k] == s[k]
  {
    assert p[k] == s[..|p|][k];
  }

  /** `s.indexOf(p)` as an option: the first position at which p occurs. */
  function IndexOf(s: string, p: string): (r: Option<nat>)
    decreases |s|
    ensures r.Some? <==> Contains(s, p)
    ensures r.Some? ==> r.value + |p| <= |s| && s[r.value..r.value + |p|] == p
    ensures r.Some? ==> forall j :: 0 <= j < r.value ==> !StartsWith(s[j..], p)
  {
    if StartsWith(s, p) then Some(0)
    else if |s| == 0 then None
    else
      match IndexOf(s[1..], p)
      case None => None
      case Some(i) =>
        assert forall j :: 1 <= j <= |s| ==> s[j..] == s[1..][j - 1..];
        Some(i + 1)
  }

  /** `s.split(sep)` for a non-empty separator: always at least one piece. */
  function Split(s: string, sep: string): (parts: seq<string>)
    requires |sep| > 0
    ensures |parts| >= 1
    decreases |s|
  {
    if |s| == 0 then [""]
    else if StartsWith(s, sep) then [""] + Split(s[|sep|..], sep)
    else
      var rest := Split(s[1..], sep);
      [[s[0]] + rest[0]] + rest[1..]
  }

  /** `parts.join(sep)`. */
  function Join(parts: seq<string>, sep: string): string
    decreases |parts|
  {
    if |parts| == 0 then ""
    else if |parts| == 1 then parts[0]
    else parts[0] + sep + Join(parts[1..], sep)
  }

  /** Joining the pieces of a split with the same separator gives back the string. */
  lemma {:induction false} JoinSplit(s: string, sep: string)
    requires |sep| > 0
    ensures Join(Split(s, sep), sep) == s
    decreases |s|
  {
    if |s| == 0 {
    } else if StartsWith(s, sep) {
      JoinSplit(s[|sep|..], sep);
      JoinSplitAtSeparator(s, sep);
    } else {
      JoinSplit(s[1..], sep);
      JoinSplitAtChar(s, sep);
    }
  }

  lemma {:induction false} JoinSplitAtSeparator(s: string, sep: string)
    requires |sep| > 0 && |s| > 0 && StartsWith(s, sep)
    requires Join(Split(s[|sep|..], sep), sep) == s[|sep|..]
    ensures Join(Split(s, sep), sep) == s
  {
    var rest := Split(s[|sep|..], sep);
    assert Split(s, sep) == [""] + rest;
    JoinEmptyFirst(rest, sep);
    assert s == sep + s[|sep|..];
  }

  lemma {:induction false} JoinSplitAtChar(s: string, sep: string)
    requires |sep| > 0 && |s| > 0 && !StartsWith(s, sep)
    requires Join(Split(s[1..], sep), sep) == s[1..]
    ensures Join(Split(s, sep), sep) == s
  {
    var rest := Split(s[1..], sep);
    assert Split(s, sep) == [[s[0]] + rest[0]] + rest[1..];
    JoinConsFirst(s[0], rest, sep);
    assert s == [s[0]] + s[1..];
  }

  /** Putting a character in front of the first part puts it in front of the join. */
  lemma {:induction false} JoinConsFirst(x: char, rest: seq<string>, sep: string)
    requires |rest| >= 1
    ensures Join([[x] + rest[0]] + rest[1..], sep) == [x] + Join(rest, sep)
  {
    var parts := [[x] + rest[0]] + rest[1..];
    if |rest| > 1 {
      assert parts[0] == [x] + rest[0] && parts[1..] == rest[1..];
      assert Join(rest, sep) == rest[0] + sep + Join(rest[1..], sep);
      assert Join(parts, sep) == parts[0] + sep + Join(parts[1..], sep);
    }
  }

  /** The first piece of a split is a prefix of the string. */
  lemma {:induction false} SplitFirstIsPrefix(s: string, sep: string)
    requires |sep| > 0
    ensures StartsWith(s, Split(s, sep)[0])
    decreases |s|
  {
    if |s| > 0 && !StartsWith(s, sep) {
      SplitFirstIsPrefix(s[1..], sep);
    }
  }

  /** No piece of a split contains the separator. */
  lemma {:induction false} SplitPiecesFree(s: string, sep: string)
    requires |sep| > 0
    ensures forall k :: 0 <= k < |Split(s, sep)| ==> !Contains(Split(s, sep)[k], sep)
    decreases |s|
  {
    if |s| == 0 {
    } else if StartsWith(s, sep) {
      SplitPiecesFree(s[|sep|..], sep);
    } else {
      var rest := Split(s[1..], sep);
      SplitPiecesFree(s[1..], sep);
      SplitFirstIsPrefix(s[1..], sep);
      var first := [s[0]] + rest[0];
      assert first[1..] == rest[0];
      assert !StartsWith(first, sep);
      assert !Contains(first, sep);
      var parts := Split(s, sep);
      forall k | 1 <= k < |parts| ensures !Contains(parts[k], sep) {
        assert parts[k] == rest[k];
      }
    }
  }

  /** With a one-character separator no piece contains that character. */
  lemma {:induction false} SplitCharPiecesFree(s: string, c: char)
    ensures forall k :: 0 <= k < |Split(s, [c])| ==> c !in Split(s, [c])[k]
    decreases |s|
  {
    if |s| == 0 {
    } else if StartsWith(s, [c]) {
      SplitCharPiecesFree(s[1..], c);
    } else {
      SplitCharPiecesFree(s[1..], c);
      assert s[0] != c;
      var rest := Split(s[1..], [c]);
      var parts := Split(s, [c]);
      forall k | 1 <= k < |parts| ensures c !in parts[k] {
        assert parts[k] == rest[k];
      }
    }
  }

  /** Splitting a join on a one-character separator that no part contains recovers the parts. */
  lemma {:induction false} SplitJoinChar(parts: seq<string>, c: char)
    requires |parts| >= 1
    requires forall k :: 0 <= k < |parts| ==> c !in parts[k]
    ensures Split(Join(parts, [c]), [c]) == parts
    decreases |parts|, |parts[0]|
  {
    if |parts| == 1 {
      SplitCharFree(parts[0], c);
    } else if |parts[0]| == 0 {
      var tail := Join(parts[1..], [c]);
      var j := Join(parts, [c]);
      assert j == [c] + tail;
      assert j[0] == c && j[1..] == tail;
      SplitJoinChar(parts[1..], c);
      SplitHeadSep(j, c);
      assert parts == [""] + parts[1..];
    } else {
      var p0 := parts[0];
      var shorter := [p0[1..]] + parts[1..];
      var j := Join(parts, [c]);
      ShorterFirstPart(parts);
      JoinConsFirst(p0[0], shorter, [c]);
      assert j[0] == p0[0] && j[1..] == Join(shorter, [c]);
      assert p0[0] != c;
      SplitJoinChar(shorter, c);
      SplitHeadOther(j, c);
    }
  }

  /** The parts with the first character of the first part taken off, and put back. */
  lemma {:induction false} ShorterFirstPart(parts: seq<string>)
    requires |parts| >= 1 && |parts[0]| > 0
    ensures var shorter := [parts[0][1..]] + parts[1..];
      [[parts[0][0]] + shorter[0]] + shorter[1..] == parts
  {
    var shorter := [parts[0][1..]] + parts[1..];
    assert [parts[0][0]] + parts[0][1..] == parts[0];
    assert shorter[1..] == parts[1..];
  }

  /** Splitting at a separator character placed between two strings splits each of them. */
  lemma {:induction false} SplitAround(a: string, c: char, b: string)
    ensures Split(a + [c] + b, [c]) == Split(a, [c]) + Split(b, [c])
    decreases |a|
  {
    var s := a + [c] + b;
    if |a| == 0 {
      assert s == [c] + b && s[0] == c && s[1..] == b;
      SplitHeadSep(s, c);
    } else {
      assert s[0] == a[0] && s[1..] == a[1..] + [c] + b;
      SplitAround(a[1..], c, b);
      if a[0] == c {
        SplitHeadSep(s, c);
        SplitHeadSep(a, c);
      } else {
        SplitHeadOther(s, c);
        SplitHeadOther(a, c);
        ConsOntoSplit(a[0], Split(a[1..], [c]), Split(b, [c]));
      }
    }
  }

  /** A string that opens with the separator character splits into an empty piece and the split of the rest. */
  lemma {:induction false} SplitHeadSep(s: string, c: char)
    requires |s| > 0 && s[0] == c
    ensures Split(s, [c]) == [""] + Split(s[1..], [c])
  {
    assert s[..1] == [c];
  }

  /** Any other first character joins the first piece of the rest's split. */
  lemma {:induction false} SplitHeadOther(s: string, c: char)
    requires |s| > 0 && s[0] != c
    ensures var rest := Split(s[1..], [c]);
      Split(s, [c]) == [[s[0]] + rest[0]] + rest[1..]
  {
    assert s[..1][0] == s[0];
  }

  lemma {:induction false} ConsOntoSplit(x: char, ra: seq<string>, rb: seq<string>)
    requires |ra| >= 1
    ensures var rest := ra + rb;
      [[x] + rest[0]] + rest[1..] == ([[x] + ra[0]] + ra[1..]) + rb
  {
    var rest := ra + rb;
    assert rest[0] == ra[0];
    assert rest[1..] == ra[1..] + rb;
  }

  lemma {:induction false} JoinConcat(xs: seq<string>, ys: seq<string>, sep: string)
    requires |xs| > 0 && |ys| > 0
    ensures Join(xs + ys, sep) == Join(xs, sep) + sep + Join(ys, sep)
    decreases |xs|
  {
    if |xs| == 1 {
      assert (xs + ys)[1..] == ys;
    } else {
      assert (xs + ys)[1..] == xs[1..] + ys;
      JoinConcat(xs[1..], ys, sep);
    }
  }

  lemma {:induction false} JoinEndsWithLast(parts: seq<string>, sep: string)
    requires |parts| > 0
    ensures EndsWith(Join(parts, sep), parts[|parts| - 1])
    decreases |parts|
  {
    if |parts| > 1 {
      JoinEndsWithLast(parts[1..], sep);
    }
  }

  /** A string free of `c` does not split on `[c]`. */
  lemma {:induction false} SplitCharFree(s: string, c: char)
    requires c !in s
    ensures Split(s, [c]) == [s]
    decreases |s|
  {
    if |s| > 0 {
      SplitCharFree(s[1..], c);
      assert s[0] != c;
      assert [s[0]] + s[1..] == s;
    }
  }

  /** A string that does not contain the separator stays in one piece. */
  lemma {:induction false} SplitAbsent(s: string, sep: string)
    requires |sep| > 0 && !Contains(s, sep)
    ensures Split(s, sep) == [s]
    decreases |s|
  {
    if |s| > 0 {
      SplitAbsent(s[1..], sep);
      assert [s[0]] + s[1..] == s;
    }
  }

  /** `s.replace(pat, rep)` with a string pattern: only the first occurrence is replaced. */
  function ReplaceFirst(s: string, pat: string, rep: string): string {
    match IndexOf(s, pat)
    case None => s
    case Some(i) => s[..i] + rep + s[i + |pat|..]
  }

  /** `s.replaceAll(pat, rep)`: every occurrence, left to right; an empty pattern matches between all characters. */
  function ReplaceAll(s: string, pat: string, rep: string): string
    decreases |s|
  {
    if |pat| == 0 then
      if |s| == 0 then rep else rep + [s[0]] + ReplaceAll(s[1..], pat, rep)
    else if |s| == 0 then ""
    else if StartsWith(s, pat) then rep + ReplaceAll(s[|pat|..], pat, rep)
    else [s[0]] + ReplaceAll(s[1..], pat, rep)
  }

  /**
   * The text a replacement string stands for in `replace`, for a pattern without named
   * groups: `$$` is a dollar sign, `$&` the matched text, `` $` `` the text before the
   * match, `$'` the text after it, `$n` and `$nn` a capture that exists (a two-digit
   * reference that names none falls back to one digit); every other `$` is itself.
   */
  function Substitute(t: string, before: string, matched: string, after: string, captures: seq<string>): (r: string)
    ensures '$' !in t ==> r == t
    decreases |t|
  {
    if |t| == 0 then ""
    else if t[0] != '$' || |t| == 1 then [t[0]] + Substitute(t[1..], before, matched, after, captures)
    else if t[1] == '$' then "$" + Substitute(t[2..], before, matched, after, captures)
    else if t[1] == '&' then matched + Substitute(t[2..], before, matched, after, captures)
    else if t[1] == '`' then before + Substitute(t[2..], before, matched, after, captures)
    else if t[1] == '\'' then after + Substitute(t[2..], before, matched, after, captures)
    else if IsDigit(t[1]) then
      var d := t[1] as int - '0' as int;
      var dd := if |t| > 2 && IsDigit(t[2]) then 10 * d + (t[2] as int - '0' as int) else 0;
      if 1 <= dd <= |captures| then captures[dd - 1] + Substitute(t[3..], before, matched, after, captures)
      else if 1 <= d <= |captures| then captures[d - 1] + Substitute(t[2..], before, matched, after, captures)
      else "$" + Substitute(t[1..], before, matched, after, captures)
    else "$" + Substitute(t[1..], before, matched, after, captures)
  }

  /** A replacement that starts with a character other than `$` keeps it and goes on with the rest. */
  lemma {:induction false} SubstitutePlainHead(c: char, t: string, before: string, matched: string, after: string, captures: seq<string>)
    requires c != '$'
    ensures Substitute([c] + t, before, matched, after, captures) == [c] + Substitute(t, before, matched, after, captures)
  {
    assert ([c] + t)[1..] == t;
  }

  /** `$1 VALUE` with one capture: the capture, a space, then what VALUE stands for. */
  lemma {:induction false} SubstituteFirstCapture(value: string, before: string, matched: string, after: string, group: string)
    ensures Substitute("$1 " + value, before, matched, after, [group])
         == group + " " + Substitute(value, before, matched, after, [group])
  {
    var t := "$1 " + value;
    assert t[0] == '$' && t[1] == '1' && !IsDigit(t[2]);
    assert Substitute(t, before, matched, after, [group]) == group + Substitute(t[2..], before, matched, after, [group]);
    assert t[2..] == [' '] + value;
    SubstitutePlainHead(' ', value, before, matched, after, [group]);
  }

  /**
   * For a non-empty pattern, replaceAll is the same as splitting on the pattern and
   * joining the pieces with the replacement; since the pieces contain no occurrence
   * (SplitPiecesFree) and join back to the original (JoinSplit), every occurrence is replaced.
   */
  lemma {:induction false} ReplaceAllIsSplitJoin(s: string, pat: string, rep: string)
    requires |pat| > 0
    ensures ReplaceAll(s, pat, rep) == Join(Split(s, pat), rep)
    decreases |s|
  {
    if |s| == 0 {
    } else if StartsWith(s, pat) {
      var rest := Split(s[|pat|..], pat);
      assert Split(s, pat) == [""] + rest;
      ReplaceAllIsSplitJoin(s[|pat|..], pat, rep);
      JoinEmptyFirst(rest, rep);
    } else {
      var rest := Split(s[1..], pat);
      assert Split(s, pat) == [[s[0]] + rest[0]] + rest[1..];
      ReplaceAllIsSplitJoin(s[1..], pat, rep);
      JoinConsFirst(s[0], rest, rep);
    }
  }

  /** An empty first part leaves just the separator in front of the join of the rest. */
  lemma {:induction false} JoinEmptyFirst(rest: seq<string>, sep: string)
    requires |rest| >= 1
    ensures Join([""] + rest, sep) == sep + Join(rest, sep)
  {
    assert ([""] + rest)[0] == "" && ([""] + rest)[1..] == rest;
  }

  /** JavaScript's `trim`/regex `\s`: WhiteSpace and LineTerminator code points. */
  predicate IsJsSpace(c: char) {
    c == ' ' || c == '\t' || c == '\n' || c == '\r' || c == '\U{000B}' || c == '\U{000C}'
    || c == '\U{00A0}' || c == '\U{1680}' || ('\U{2000}' <= c <= '\U{200A}')
    || c == '\U{2028}' || c == '\U{2029}' || c == '\U{202F}' || c == '\U{205F}'
    || c == '\U{3000}' || c == '\U{FEFF}'
  }

  function TrimStart(s: string): (r: string)
    ensures EndsWith(s, r)
    ensures |r| > 0 ==> !IsJsSpace(r[0])
    ensures forall i :: 0 <= i < |s| - |r| ==> IsJsSpace(s[i])
    decreases |s|
  {
    if |s| > 0 && IsJsSpace(s[0]) then
      var r := TrimStart(s[1..]);
      TrimStartStep(s, r);
      r
    else s
  }

  /** One leading space more in front of a trimmed suffix. */
  lemma {:induction false} TrimStartStep(s: string, r: string)
    requires |s| > 0 && IsJsSpace(s[0]) && EndsWith(s[1..], r)
    requires forall i :: 0 <= i < |s| - 1 - |r| ==> IsJsSpace(s[1..][i])
    ensures EndsWith(s, r) && forall i :: 0 <= i < |s| - |r| ==> IsJsSpace(s[i])
  {
    assert s[|s| - |r|..] == s[1..][|s| - 1 - |r|..];
    forall i | 0 <= i < |s| - |r| ensures IsJsSpace(s[i]) {
      if i > 0 {
        assert s[i] == s[1..][i - 1];
      }
    }
  }

  function TrimEnd(s: string): (r: string)
    ensures StartsWith(s, r)
    ensures |r| > 0 ==> !IsJsSpace(r[|r| - 1])
    ensures forall i :: |r| <= i < |s| ==> IsJsSpace(s[i])
    decreases |s|
  {
    if |s| > 0 && IsJsSpace(s[|s| - 1]) then
      var r := TrimEnd(s[..|s| - 1]);
      assert s[..|r|] == s[..|s| - 1][..|r|];
      r
    else s
  }

  /** r sits at offset i of s with only whitespace around it. */
  predicate TrimmedAt(s: string, r: string, i: int) {
    0 <= i <= |s| - |r| && s[i..i + |r|] == r
    && (forall k :: 0 <= k < i ==> IsJsSpace(s[k]))
    && (forall k :: i + |r| <= k < |s| ==> IsJsSpace(s[k]))
  }

  /** `s.trim()`: the slice of s between the leading and the trailing whitespace. */
  function Trim(s: string): (r: string)
    ensures exists i :: TrimmedAt(s, r, i)
    ensures |r| > 0 ==> !IsJsSpace(r[0]) && !IsJsSpace(r[|r| - 1])
  {
    var t := TrimStart(s);
    var r := TrimEnd(t);
    TrimmedFromParts(s, t, r);
    r
  }

  /** Trimming the end of a trimmed start leaves a slice with only whitespace around it. */
  lemma {:induction false} TrimmedFromParts(s: string, t: string, r: string)
    requires EndsWith(s, t) && (forall i :: 0 <= i < |s| - |t| ==> IsJsSpace(s[i]))
    requires StartsWith(t, r) && (forall i :: |r| <= i < |t| ==> IsJsSpace(t[i]))
    requires |t| > 0 ==> !IsJsSpace(t[0])
    ensures TrimmedAt(s, r, |s| - |t|)
    ensures |r| > 0 ==> !IsJsSpace(r[0])
  {
    var i := |s| - |t|;
    assert s[i..] == t;
    assert s[i..i + |r|] == t[..|r|];
    forall k | i + |r| <= k < |s| ensures IsJsSpace(s[k]) {
      assert s[k] == t[k - i];
    }
    if |r| > 0 {
      assert r[0] == t[0];
    }
  }

  /** A string with no whitespace at either end is its own trim. */
  lemma {:induction false} TrimIdentity(s: string)
    requires |s| > 0 ==> !IsJsSpace(s[0]) && !IsJsSpace(s[|s| - 1])
    ensures Trim(s) == s
  {
  }

  function Spaces(n: nat): (r: string)
    ensures |r| == n && forall i :: 0 <= i < n ==> r[i] == ' '
  {
    seq(n, _ => ' ')
  }

  /** `s.padStart(width)`: spaces on the left up to the width; never shortens. */
  function PadStart(s: string, width: nat): (r: string)
    ensures |r| == if |s| >= width then |s| else width
    ensures EndsWith(r, s)
    ensures forall i :: 0 <= i < |r| - |s| ==> r[i] == ' '
  {
    if |s| >= width then s else Spaces(width - |s|) + s
  }

  predicate IsDigit(c: char) {
    '0' <= c <= '9'
  }

  predicate IsDigits(s: string) {
    |s| > 0 && forall i :: 0 <= i < |s| ==> IsDigit(s[i])
  }

  function DigitChar(d: nat): (c: char)
    requires d < 10
    ensures IsDigit(c) && (c as int) - ('0' as int) == d
  {
    ('0' as int + d) as char
  }

  /** Decimal digits of a natural number, without leading zeros (`String(n)`). */
  function NatToString(n: nat): (r: string)
    ensures IsDigits(r)
    ensures |r| > 1 ==> r[0] != '0'
    decreases n
  {
    if n < 10 then [DigitChar(n)] else NatToString(n / 10) + [DigitChar(n % 10)]
  }

  /** The value of a string of decimal digits (`Number(s)` on digits). */
  function DigitsValue(s: string): nat
    requires forall i :: 0 <= i < |s| ==> IsDigit(s[i])
    decreases |s|
  {
    if |s| == 0 then 0
    else
      assert IsDigit(s[|s| - 1]);
      DigitsValue(s[..|s| - 1]) * 10 + ((s[|s| - 1] as int) - ('0' as int))
  }

  /** Printing a number and reading it back gives the number. */
  lemma {:induction false} DigitsValueOfNatToString(n: nat)
    ensures DigitsValue(NatToString(n)) == n
    decreases n
  {
    if n >= 10 {
      DigitsValueOfNatToString(n / 10);
      var s := NatToString(n);
      assert s[..|s| - 1] == NatToString(n / 10);
    }
  }

  /** Same number, same decimal text: NatToString is injective. */
  lemma {:induction false} NatToStringInjective(m: nat, n: nat)
    requires NatToString(m) == NatToString(n)
    ensures m == n
  {
    DigitsValueOfNatToString(m);
    DigitsValueOfNatToString(n);
  }

  /** `seq.filter`: the elements satisfying the predicate, in order. */
  function Filter<T>(xs: seq<T>, keep: T -> bool): (r: seq<T>)
    ensures |r| <= |xs|
    ensures forall i :: 0 <= i < |r| ==> r[i] in xs && keep(r[i])
    ensures forall i :: 0 <= i < |xs| && keep(xs[i]) ==> xs[i] in r
    decreases |xs|
  {
    if |xs| == 0 then []
    else if keep(xs[0]) then [xs[0]] + Filter(xs[1..], keep)
    else Filter(xs[1..], keep)
  }

  /** A dropped first element leaves the filter of the rest. */
  lemma {:induction false} FilterSkip<T>(x: T, rest: seq<T>, keep: T -> bool)
    requires !keep(x)
    ensures Filter([x] + rest, keep) == Filter(rest, keep)
  {
    assert ([x] + rest)[0] == x && ([x] + rest)[1..] == rest;
  }

  /** Filtering a concatenation filters each part. */
  lemma {:induction false} FilterConcat<T>(xs: seq<T>, ys: seq<T>, keep: T -> bool)
    ensures Filter(xs + ys, keep) == Filter(xs, keep) + Filter(ys, keep)
    decreases |xs|
  {
    if |xs| == 0 {
      assert xs + ys == ys;
    } else {
      assert (xs + ys)[0] == xs[0] && (xs + ys)[1..] == xs[1..] + ys;
      FilterConcat(xs[1..], ys, keep);
    }
  }

  /** A filter that every element passes changes nothing. */
  lemma {:induction false} FilterKeepsAll<T>(xs: seq<T>, keep: T -> bool)
    requires forall i :: 0 <= i < |xs| ==> keep(xs[i])
    ensures Filter(xs, keep) == xs
    decreases |xs|
  {
    if |xs| > 0 {
      FilterKeepsAll(xs[1..], keep);
    }
  }

  /** A pattern free of the separator occurs in a join only if it occurs in one of the parts. */
  lemma {:induction false} JoinFree(parts: seq<string>, c: char, p: string)
    requires c !in p
    requires forall k :: 0 <= k < |parts| ==> !Contains(parts[k], p)
    ensures |parts| > 0 || p != "" ==> !Contains(Join(parts, [c]), p)
    decreases |parts|
  {
    if |parts| == 0 {
      if p != "" {
        assert !StartsWith("", p);
      }
    } else if |parts| > 1 {
      JoinFree(parts[1..], c, p);
      if Contains(Join(parts, [c]), p) {
        ContainsAcrossSeparator(parts[0], c, Join(parts[1..], [c]), p);
        assert false;
      }
    }
  }
}
