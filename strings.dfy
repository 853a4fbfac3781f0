/** Go's `strings.Fields`: the words of a line, split around runs of white space. */
module Strings {

  /** Go's `unicode.IsSpace`: the Latin-1 spaces and the other Unicode White_Space characters. */
  predicate IsSpace(c: char) {
    c == '\t' || c == '\n' || c == '\U{000B}' || c == '\U{000C}' || c == '\r' || c == ' '
    || c == '\U{0085}' || c == '\U{00A0}' || c == '\U{1680}'
    || ('\U{2000}' <= c <= '\U{200A}')
    || c == '\U{2028}' || c == '\U{2029}' || c == '\U{202F}' || c == '\U{205F}' || c == '\U{3000}'
  }

  /** A non-empty run of characters none of which is white space. */
  predicate IsWord(w: string) {
    w != [] && forall i :: 0 <= i < |w| ==> !IsSpace(w[i])
  }

  /** Length of the longest prefix of `s` that holds no white space. */
  function WordLength(s: string): (n: nat)
    ensures n <= |s|
    ensures forall i :: 0 <= i < n ==> !IsSpace(s[i])
    ensures n < |s| ==> IsSpace(s[n])
  {
    if s == [] || IsSpace(s[0]) then 0 else 1 + WordLength(s[1..])
  }

  /** `strings.Fields(s)`: the maximal white-space-free runs of `s`, in order. */
  function Fields(s: string): (r: seq<string>)
    ensures forall k :: 0 <= k < |r| ==> IsWord(r[k])
    decreases |s|
  {
    if s == [] then []
    else if IsSpace(s[0]) then Fields(s[1..])
    else
      var n := WordLength(s);
      [s[..n]] + Fields(s[n..])
  }

  /** The characters of `s` that are not white space, in order. */
  function NonSpace(s: string): string {
    if s == [] then [] else (if IsSpace(s[0]) then [] else [s[0]]) + NonSpace(s[1..])
  }

  /** The words laid end to end. */
  function Concat(ws: seq<string>): string {
    if ws == [] then [] else ws[0] + Concat(ws[1..])
  }

  /** A run of white space, possibly empty. */
  predicate AllSpace(s: string) {
    forall i :: 0 <= i < |s| ==> IsSpace(s[i])
  }

  /**
   * Separators for `n` words: one run of white space before each word and one after the
   * last, where the runs between two words are not empty.
   */
  predicate Separators(seps: seq<string>, n: nat) {
    |seps| == n + 1
    && (forall k :: 0 <= k < |seps| ==> AllSpace(seps[k]))
    && (forall k :: 0 < k < n ==> seps[k] != [])
  }

  /** `seps[0] + ws[0] + seps[1] + ... + ws[n - 1] + seps[n]`. */
  function Interleave(seps: seq<string>, ws: seq<string>): string
    requires |seps| == |ws| + 1
  {
    if ws == [] then seps[0] else seps[0] + ws[0] + Interleave(seps[1..], ws[1..])
  }

  /** The words separated by single blanks, as a user types them on one line. */
  function JoinWithBlanks(ws: seq<string>): string {
    if |ws| == 0 then []
    else if |ws| == 1 then ws[0]
    else ws[0] + " " + JoinWithBlanks(ws[1..])
  }

  lemma {:induction false} NonSpaceAppend(a: string, b: string)
    ensures NonSpace(a + b) == NonSpace(a) + NonSpace(b)
  {
    if a != [] {
      assert (a + b)[1..] == a[1..] + b;
      NonSpaceAppend(a[1..], b);
    } else {
      assert a + b == b;
    }
  }

  lemma {:induction false} NonSpaceOfSpaceFree(w: string)
    requires forall i :: 0 <= i < |w| ==> !IsSpace(w[i])
    ensures NonSpace(w) == w
  {
    if w != [] {
      NonSpaceOfSpaceFree(w[1..]);
      assert w == [w[0]] + w[1..];
    }
  }

  /** Fields loses nothing but white space: its words, laid end to end, are the line without its blanks. */
  lemma {:induction false} FieldsDropsOnlySpace(s: string)
    ensures Concat(Fields(s)) == NonSpace(s)
    decreases |s|
  {
    if s == [] {
    } else if IsSpace(s[0]) {
      FieldsDropsOnlySpace(s[1..]);
    } else {
      var n := WordLength(s);
      var rest := Fields(s[n..]);
      assert ([s[..n]] + rest)[0] == s[..n] && ([s[..n]] + rest)[1..] == rest;
      FieldsDropsOnlySpace(s[n..]);
      assert s == s[..n] + s[n..];
      NonSpaceAppend(s[..n], s[n..]);
      NonSpaceOfSpaceFree(s[..n]);
    }
  }

  lemma {:induction false} WordLengthOfWord(w: string, tail: string)
    requires forall i :: 0 <= i < |w| ==> !IsSpace(w[i])
    requires tail == [] || IsSpace(tail[0])
    ensures WordLength(w + tail) == |w|
  {
    if w == [] {
      assert w + tail == tail;
    } else {
      assert (w + tail)[1..] == w[1..] + tail;
      WordLengthOfWord(w[1..], tail);
    }
  }

  /** A word followed by a white-space character contributes exactly that word. */
  lemma FieldsOfWordThenSpace(w: string, c: char, rest: string)
    requires IsWord(w) && IsSpace(c)
    ensures Fields(w + [c] + rest) == [w] + Fields(rest)
  {
    var s := w + [c] + rest;
    WordLengthOfWord(w, [c] + rest);
    assert s == w + ([c] + rest);
    assert s[..|w|] == w;
    assert s[|w|..] == [c] + rest;
    assert ([c] + rest)[1..] == rest;
  }

  /** A single word is a single field. */
  lemma FieldsOfWord(w: string)
    requires IsWord(w)
    ensures Fields(w) == [w]
  {
    WordLengthOfWord(w, []);
    assert w + [] == w;
    assert w[..|w|] == w && w[|w|..] == [];
  }

  /** Leading white space contributes no field. */
  lemma {:induction false} FieldsOfSpaceThen(sp: string, rest: string)
    requires AllSpace(sp)
    ensures Fields(sp + rest) == Fields(rest)
  {
    if sp != [] {
      assert (sp + rest)[1..] == sp[1..] + rest;
      FieldsOfSpaceThen(sp[1..], rest);
    } else {
      assert sp + rest == rest;
    }
  }

  /** A word followed by text that starts with white space is a field of its own. */
  lemma FieldsOfWordThenSeparator(w: string, t: string)
    requires IsWord(w) && t != [] && IsSpace(t[0])
    ensures Fields(w + t) == [w] + Fields(t)
  {
    FieldsOfWordThenSpace(w, t[0], t[1..]);
    assert w + t == w + [t[0]] + t[1..];
  }

  /** The separators after the first are separators for the remaining words. */
  lemma SeparatorsTail(seps: seq<string>, n: nat)
    requires Separators(seps, n) && n > 0
    ensures Separators(seps[1..], n - 1)
  {
    forall k | 0 < k < n - 1 ensures seps[1..][k] != [] {
      assert seps[1..][k] == seps[k + 1];
    }
  }

  /** One more white-space character before the first word keeps the separators valid. */
  lemma SeparatorsConsSpace(c: char, rest: seq<string>, ws: seq<string>)
    requires IsSpace(c) && Separators(rest, |ws|)
    ensures var seps := [[c] + rest[0]] + rest[1..];
      Separators(seps, |ws|) && Interleave(seps, ws) == [c] + Interleave(rest, ws)
  {
    var seps := [[c] + rest[0]] + rest[1..];
    forall k | 0 < k < |seps| ensures seps[k] == rest[k] {
    }
    assert seps[1..] == rest[1..];
  }

  /** A word in front, with nothing before it, keeps the separators valid. */
  lemma SeparatorsConsWord(w: string, rest: seq<string>, ws: seq<string>)
    requires Separators(rest, |ws|) && (ws != [] ==> rest[0] != [])
    ensures var seps := [[]] + rest;
      Separators(seps, |ws| + 1) && Interleave(seps, [w] + ws) == w + Interleave(rest, ws)
  {
    var seps := [[]] + rest;
    forall k | 0 < k < |seps| ensures seps[k] == rest[k - 1] {
    }
    assert seps[1..] == rest && ([w] + ws)[1..] == ws;
  }

  /** With no white space in front, an interleaving starts with its first word's first character. */
  lemma InterleaveStart(seps: seq<string>, ws: seq<string>)
    requires |seps| == |ws| + 1 && ws != [] && seps[0] == [] && IsWord(ws[0])
    ensures Interleave(seps, ws) != [] && !IsSpace(Interleave(seps, ws)[0])
  {
    var s := Interleave(seps, ws);
    assert s == ws[0] + Interleave(seps[1..], ws[1..]);
    assert s[0] == ws[0][0];
  }

  /** With white space in front, an interleaving starts with white space. */
  lemma InterleaveStartsWithSpace(seps: seq<string>, ws: seq<string>)
    requires |seps| == |ws| + 1 && seps[0] != [] && AllSpace(seps[0])
    ensures Interleave(seps, ws) != [] && IsSpace(Interleave(seps, ws)[0])
  {
    var s := Interleave(seps, ws);
    if ws != [] {
      assert s == seps[0] + (ws[0] + Interleave(seps[1..], ws[1..]));
    }
    assert s[0] == seps[0][0];
  }

  /** Fields of a word followed by a trailing run of white space. */
  lemma FieldsOfWordThenTrailing(w: string, sp: string)
    requires IsWord(w) && AllSpace(sp)
    ensures Fields(w + sp) == [w]
  {
    if sp == [] {
      assert w + sp == w;
      FieldsOfWord(w);
    } else {
      FieldsOfWordThenSeparator(w, sp);
      FieldsOfSpaceThen(sp, []);
      assert sp + [] == sp;
    }
  }

  /**
   * Fields splits exactly at the separators: words separated by runs of white space
   * (tabs, newlines, runs of blanks), with white space allowed before the first and after
   * the last, come back unchanged.
   */
  lemma {:induction false} FieldsOfInterleave(seps: seq<string>, ws: seq<string>)
    requires Separators(seps, |ws|)
    requires forall k :: 0 <= k < |ws| ==> IsWord(ws[k])
    ensures Fields(Interleave(seps, ws)) == ws
  {
    if ws == [] {
      FieldsOfSpaceThen(seps[0], []);
      assert seps[0] + [] == seps[0];
    } else {
      var tail := Interleave(seps[1..], ws[1..]);
      assert Interleave(seps, ws) == seps[0] + (ws[0] + tail);
      FieldsOfSpaceThen(seps[0], ws[0] + tail);
      if |ws| == 1 {
        FieldsOfWordThenTrailing(ws[0], tail);
      } else {
        SeparatorsTail(seps, |ws|);
        InterleaveStartsWithSpace(seps[1..], ws[1..]);
        FieldsOfWordThenSeparator(ws[0], tail);
        FieldsOfInterleave(seps[1..], ws[1..]);
        assert ws == [ws[0]] + ws[1..];
      }
    }
  }

  /**
   * Conversely, every line is its fields interleaved with runs of white space, so the
   * fields of a line are the only words it can be split into.
   */
  lemma {:induction false} FieldsSplitsAtSeparators(s: string) returns (seps: seq<string>)
    ensures Separators(seps, |Fields(s)|) && s == Interleave(seps, Fields(s))
    decreases |s|
  {
    if s == [] {
      seps := [[]];
    } else if IsSpace(s[0]) {
      var rest := FieldsSplitsAtSeparators(s[1..]);
      SeparatorsConsSpace(s[0], rest, Fields(s[1..]));
      seps := [[s[0]] + rest[0]] + rest[1..];
      assert s == [s[0]] + s[1..];
    } else {
      var n := WordLength(s);
      var more := Fields(s[n..]);
      var rest := FieldsSplitsAtSeparators(s[n..]);
      if more != [] && rest[0] == [] {
        InterleaveStart(rest, more);
        assert false;
      }
      SeparatorsConsWord(s[..n], rest, more);
      seps := [[]] + rest;
      assert s == s[..n] + s[n..];
    }
  }

  /** Splitting undoes joining: words typed with single blanks between them come back unchanged. */
  lemma {:induction false} FieldsOfJoin(ws: seq<string>)
    requires forall k :: 0 <= k < |ws| ==> IsWord(ws[k])
    ensures Fields(JoinWithBlanks(ws)) == ws
  {
    if |ws| == 1 {
      FieldsOfWord(ws[0]);
    } else if |ws| > 1 {
      FieldsOfWordThenSpace(ws[0], ' ', JoinWithBlanks(ws[1..]));
      FieldsOfJoin(ws[1..]);
      assert ws == [ws[0]] + ws[1..];
    }
  }
}
