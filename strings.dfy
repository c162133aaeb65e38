/**
 * The parts of Go's `strings` package that the exporter calls:
 * `Fields` (split on runs of white space), `Split` with a one-character
 * separator, and `TrimSpace`. `Join` is not called by the exporter; it is
 * the partner against which the splitting functions are proved.
 * A Go string is modelled as a sequence of runes (`seq<char>`).
 */
module Strings {

  /** Go's `unicode.IsSpace`: the ASCII white space, U+0085, U+00A0 and
      the other code points with the Unicode White_Space property. */
  predicate IsSpace(c: char)
  {
    || c == ' ' || c == '\t' || c == '\n' || c == '\r'
    || c == '\U{B}' || c == '\U{C}'
    || c == '\U{85}' || c == '\U{A0}' || c == '\U{1680}'
    || ('\U{2000}' <= c <= '\U{200A}')
    || c == '\U{2028}' || c == '\U{2029}' || c == '\U{202F}'
    || c == '\U{205F}' || c == '\U{3000}'
  }

  predicate NoSpace(s: string)
  {
    forall i :: 0 <= i < |s| ==> !IsSpace(s[i])
  }

  predicate AllSpace(s: string)
  {
    forall i :: 0 <= i < |s| ==> IsSpace(s[i])
  }

  /** A token as `Fields` produces it: non-empty and free of white space. */
  predicate IsField(w: string)
  {
    w != [] && NoSpace(w)
  }

  /** `s` with every white-space rune removed. */
  function Squeeze(s: string): (r: string)
    ensures NoSpace(r)
  {
    if s == [] then []
    else if IsSpace(s[0]) then Squeeze(s[1..])
    else [s[0]] + Squeeze(s[1..])
  }

  /** The concatenation of all tokens. */
  function Concat(parts: seq<string>): string
  {
    if parts == [] then [] else parts[0] + Concat(parts[1..])
  }

  /** The tokens separated by one `sep` each (Go's `strings.Join`). */
  function Join(parts: seq<string>, sep: char): string
  {
    if |parts| == 0 then []
    else if |parts| == 1 then parts[0]
    else parts[0] + [sep] + Join(parts[1..], sep)
  }

  /** Length of the longest prefix of `s` that holds no white space. */
  function WordLength(s: string): (n: nat)
    ensures n <= |s|
    ensures NoSpace(s[..n])
    ensures n < |s| ==> IsSpace(s[n])
  {
    if s == [] || IsSpace(s[0]) then 0 else 1 + WordLength(s[1..])
  }

  /** Go's `strings.Fields`: the maximal runs of non-white-space runes, in order. */
  function Fields(s: string): (r: seq<string>)
    ensures forall i :: 0 <= i < |r| ==> IsField(r[i])
    decreases |s|
  {
    if s == [] then []
    else if IsSpace(s[0]) then Fields(s[1..])
    else
      var n := WordLength(s);
      [s[..n]] + Fields(s[n..])
  }

  /** `Fields` loses nothing but white space: its tokens, concatenated, are
      the text with every white-space rune removed. */
  lemma {:induction false} FieldsKeepsText(s: string)
    ensures Concat(Fields(s)) == Squeeze(s)
    decreases |s|
  {
    if s != [] {
      if IsSpace(s[0]) {
        FieldsKeepsText(s[1..]);
      } else {
        var n := WordLength(s);
        FieldsKeepsText(s[n..]);
        SqueezeAppend(s[..n], s[n..]);
        SqueezeNoSpace(s[..n]);
        assert s[..n] + s[n..] == s;
        assert Fields(s) == [s[..n]] + Fields(s[n..]);
        assert ([s[..n]] + Fields(s[n..]))[1..] == Fields(s[n..]);
      }
    }
  }

  lemma {:induction false} SqueezeAppend(a: string, b: string)
    ensures Squeeze(a + b) == Squeeze(a) + Squeeze(b)
    decreases |a|
  {
    if a != [] {
      assert (a + b)[1..] == a[1..] + b;
      SqueezeAppend(a[1..], b);
    } else {
      assert a + b == b;
    }
  }

  lemma {:induction false} SqueezeNoSpace(w: string)
    requires NoSpace(w)
    ensures Squeeze(w) == w
    decreases |w|
  {
    if w != [] {
      SqueezeNoSpace(w[1..]);
      assert w == [w[0]] + w[1..];
    }
  }

  /** A white-space rune in front of the text adds no token. */
  lemma FieldsSkipsSpace(c: char, s: string)
    requires IsSpace(c)
    ensures Fields([c] + s) == Fields(s)
  {
    assert ([c] + s)[1..] == s;
  }

  /** A token followed by white space (or by nothing) is the first field. */
  lemma {:induction false} FieldsOfWord(w: string, rest: string)
    requires IsField(w)
    requires rest == [] || IsSpace(rest[0])
    ensures Fields(w + rest) == [w] + Fields(rest)
  {
    WordLengthOf(w, rest);
    assert (w + rest)[..|w|] == w;
    assert (w + rest)[|w|..] == rest;
  }

  lemma {:induction false} WordLengthOf(w: string, rest: string)
    requires NoSpace(w)
    requires rest == [] || IsSpace(rest[0])
    ensures WordLength(w + rest) == |w|
    decreases |w|
  {
    if w != [] {
      assert (w + rest)[1..] == w[1..] + rest;
      WordLengthOf(w[1..], rest);
    } else {
      assert w + rest == rest;
    }
  }

  /** Round trip: `Fields` recovers tokens joined by single spaces, whatever
      white-space-led text follows them (a trailing newline, say). */
  lemma {:induction false} FieldsOfJoin(tokens: seq<string>, tail: string)
    requires forall i :: 0 <= i < |tokens| ==> IsField(tokens[i])
    requires tail == [] || IsSpace(tail[0])
    ensures Fields(Join(tokens, ' ') + tail) == tokens + Fields(tail)
    decreases |tokens|
  {
    if |tokens| == 0 {
      assert Join(tokens, ' ') + tail == tail;
    } else if |tokens| == 1 {
      FieldsOfWord(tokens[0], tail);
    } else {
      var rest := Join(tokens[1..], ' ') + tail;
      assert Join(tokens, ' ') == tokens[0] + [' '] + Join(tokens[1..], ' ');
      assert Join(tokens, ' ') + tail == tokens[0] + ([' '] + rest);
      calc {
        Fields(Join(tokens, ' ') + tail);
        Fields(tokens[0] + ([' '] + rest));
        { FieldsOfWord(tokens[0], [' '] + rest); }
        [tokens[0]] + Fields([' '] + rest);
        { FieldsSkipsSpace(' ', rest); }
        [tokens[0]] + Fields(rest);
        { FieldsOfJoin(tokens[1..], tail); }
        [tokens[0]] + (tokens[1..] + Fields(tail));
        { assert [tokens[0]] + tokens[1..] == tokens; }
        tokens + Fields(tail);
      }
    }
  }

  /** Index of the first `sep` in `s`, or `|s|` when there is none. */
  function IndexOf(s: string, sep: char): (n: nat)
    ensures n <= |s|
    ensures sep !in s[..n]
    ensures n < |s| ==> s[n] == sep
  {
    if s == [] || s[0] == sep then 0 else 1 + IndexOf(s[1..], sep)
  }

  /** Go's `strings.Split(s, string(sep))`: the pieces between separators,
      empty pieces kept, one more piece than there are separators. */
  function Split(s: string, sep: char): (r: seq<string>)
    ensures |r| == Occurrences(s, sep) + 1
    ensures forall i :: 0 <= i < |r| ==> sep !in r[i]
    decreases |s|
  {
    var n := IndexOf(s, sep);
    if n == |s| then
      assert s == s[..n];
      OccurrencesAbsent(s, sep);
      [s]
    else
      SeparatorCount(s, sep, n);
      [s[..n]] + Split(s[n + 1..], sep)
  }

  /** How many times `c` occurs in `s`. */
  function Occurrences(s: string, c: char): nat
  {
    if s == [] then 0 else (if s[0] == c then 1 else 0) + Occurrences(s[1..], c)
  }

  lemma {:induction false} OccurrencesAbsent(s: string, c: char)
    requires c !in s
    ensures Occurrences(s, c) == 0
  {
    if s != [] {
      assert s[0] in s;
      assert forall x :: x in s[1..] ==> x in s;
      OccurrencesAbsent(s[1..], c);
    }
  }

  /** Past the first separator, one separator fewer remains. */
  lemma {:induction false} SeparatorCount(s: string, sep: char, n: nat)
    requires n < |s| && s[n] == sep && sep !in s[..n]
    ensures Occurrences(s, sep) == Occurrences(s[n + 1..], sep) + 1
  {
    if n > 0 {
      assert s[0] in s[..n];
      assert s[1..][..n - 1] == s[1..n];
      SeparatorCount(s[1..], sep, n - 1);
      assert s[1..][n..] == s[n + 1..];
    }
  }

  /** The text around its first separator. */
  lemma SplitAtFirst(s: string, sep: char)
    requires IndexOf(s, sep) < |s|
    ensures var n := IndexOf(s, sep);
      && Split(s, sep) == [s[..n]] + Split(s[n + 1..], sep)
      && s == s[..n] + [sep] + s[n + 1..]
  {
  }

  /** Round trip: joining the pieces with the separator rebuilds the text. */
  lemma {:induction false} JoinOfSplit(s: string, sep: char)
    ensures Join(Split(s, sep), sep) == s
    decreases |s|
  {
    var n := IndexOf(s, sep);
    if n == |s| {
      assert s == s[..n];
    } else {
      var pieces := Split(s, sep);
      var rest := Split(s[n + 1..], sep);
      SplitAtFirst(s, sep);
      assert pieces[1..] == rest;
      assert Join(pieces, sep) == pieces[0] + [sep] + Join(rest, sep);
      JoinOfSplit(s[n + 1..], sep);
    }
  }

  /** Round trip: splitting a joined list gives the list back, as long as
      no piece holds the separator. */
  lemma {:induction false} SplitOfJoin(parts: seq<string>, sep: char)
    requires |parts| > 0
    requires forall i :: 0 <= i < |parts| ==> sep !in parts[i]
    ensures Split(Join(parts, sep), sep) == parts
    decreases |parts|
  {
    var s := Join(parts, sep);
    if |parts| == 1 {
      IndexOfAbsent(parts[0], sep);
    } else {
      var rest := Join(parts[1..], sep);
      assert s == parts[0] + [sep] + rest;
      IndexOfFirst(parts[0], sep, rest);
      assert s[..|parts[0]|] == parts[0];
      assert s[|parts[0]| + 1..] == rest;
      SplitOfJoin(parts[1..], sep);
      assert [parts[0]] + parts[1..] == parts;
    }
  }

  lemma {:induction false} IndexOfAbsent(s: string, sep: char)
    requires sep !in s
    ensures IndexOf(s, sep) == |s|
    decreases |s|
  {
    if s != [] {
      assert s[0] in s;
      IndexOfAbsent(s[1..], sep);
    }
  }

  lemma {:induction false} IndexOfFirst(w: string, sep: char, rest: string)
    requires sep !in w
    ensures IndexOf(w + [sep] + rest, sep) == |w|
    decreases |w|
  {
    if w != [] {
      assert w[0] in w;
      assert (w + [sep] + rest)[1..] == w[1..] + [sep] + rest;
      IndexOfFirst(w[1..], sep, rest);
    }
  }

  /** Go's `strings.TrimLeftFunc(s, unicode.IsSpace)`. */
  function TrimLeft(s: string): string
  {
    if s != [] && IsSpace(s[0]) then TrimLeft(s[1..]) else s
  }

  /** Go's `strings.TrimRightFunc(s, unicode.IsSpace)`. */
  function TrimRight(s: string): string
  {
    if s != [] && IsSpace(s[|s| - 1]) then TrimRight(s[..|s| - 1]) else s
  }

  /** `TrimLeft` drops exactly the leading white space. */
  lemma {:induction false} TrimLeftDropsSpace(s: string)
    ensures |TrimLeft(s)| <= |s| && TrimLeft(s) == s[|s| - |TrimLeft(s)|..]
    ensures AllSpace(s[..|s| - |TrimLeft(s)|])
    ensures TrimLeft(s) == [] || !IsSpace(TrimLeft(s)[0])
    decreases |s|
  {
    if s != [] && IsSpace(s[0]) {
      TrimLeftDropsSpace(s[1..]);
      var k := |s| - |TrimLeft(s)|;
      assert forall j :: 1 <= j < k ==> s[j] == s[1..][..k - 1][j - 1];
    }
  }

  /** `TrimRight` drops exactly the trailing white space. */
  lemma {:induction false} TrimRightDropsSpace(s: string)
    ensures |TrimRight(s)| <= |s| && TrimRight(s) == s[..|TrimRight(s)|]
    ensures AllSpace(s[|TrimRight(s)|..])
    ensures TrimRight(s) == [] || !IsSpace(TrimRight(s)[|TrimRight(s)| - 1])
    decreases |s|
  {
    if s != [] && IsSpace(s[|s| - 1]) {
      TrimRightDropsSpace(s[..|s| - 1]);
      var k := |TrimRight(s)|;
      assert forall j :: k <= j < |s| - 1 ==> s[j] == s[..|s| - 1][k..][j - k];
    }
  }

  /** Go's `strings.TrimSpace`: the text without its leading and trailing
      white space. */
  function TrimSpace(s: string): (r: string)
    ensures |r| <= |s|
    ensures r == [] || (!IsSpace(r[0]) && !IsSpace(r[|r| - 1]))
  {
    TrimLeftDropsSpace(s);
    TrimRightDropsSpace(TrimLeft(s));
    TrimRight(TrimLeft(s))
  }

  /** What `TrimSpace` removes is white space at the two ends, and only
      that: the result is the middle of the text, unchanged. */
  lemma TrimSpaceIsMiddle(s: string)
    ensures exists i :: 0 <= i <= |s| - |TrimSpace(s)| && TrimSpace(s) == s[i..i + |TrimSpace(s)|]
                        && AllSpace(s[..i]) && AllSpace(s[i + |TrimSpace(s)|..])
  {
    var l := TrimLeft(s);
    var r := TrimRight(l);
    var i := |s| - |l|;
    TrimLeftDropsSpace(s);
    TrimRightDropsSpace(l);
    assert r == s[i..i + |r|];
    assert s[i + |r|..] == l[|r|..];
  }

  /** Trimming padded text gives back the text itself; in particular
      `TrimSpace` is idempotent. */
  lemma TrimSpaceOfPadded(a: string, w: string, b: string)
    requires AllSpace(a) && AllSpace(b)
    requires w == [] || (!IsSpace(w[0]) && !IsSpace(w[|w| - 1]))
    ensures TrimSpace(a + w + b) == w
  {
    if w == [] {
      assert a + w + b == (a + b) + [];
      TrimLeftOf(a + b, []);
    } else {
      assert a + w + b == a + (w + b);
      TrimLeftOf(a, w + b);
      TrimRightOf(w, b);
    }
  }

  lemma {:induction false} TrimLeftOf(a: string, x: string)
    requires AllSpace(a)
    requires x == [] || !IsSpace(x[0])
    ensures TrimLeft(a + x) == x
    decreases |a|
  {
    if a == [] {
      assert a + x == x;
    } else {
      assert (a + x)[1..] == a[1..] + x;
      TrimLeftOf(a[1..], x);
    }
  }

  lemma {:induction false} TrimRightOf(x: string, b: string)
    requires AllSpace(b)
    requires x == [] || !IsSpace(x[|x| - 1])
    ensures TrimRight(x + b) == x
    decreases |b|
  {
    if b == [] {
      assert x + b == x;
    } else {
      assert (x + b)[..|x + b| - 1] == x + b[..|b| - 1];
      TrimRightOf(x, b[..|b| - 1]);
    }
  }
}
