/** `strip_empty_lines`: the text post-processing applied to rendered output.

    The text is split into lines, the lines that are empty or hold only
    whitespace are dropped, and the rest are joined with single newlines.
 */
module HexdocText {

  /** Python's `str.isspace` on one character. */
  predicate IsSpace(c: char)
  {
    c == ' ' || ('\t' <= c <= '\r') || ('\U{1C}' <= c <= '\U{1F}') || c == '\U{85}' || c == '\U{A0}' ||
    c == '\U{1680}' || ('\U{2000}' <= c <= '\U{200A}') || c == '\U{2028}' || c == '\U{2029}' ||
    c == '\U{202F}' || c == '\U{205F}' || c == '\U{3000}'
  }

  /** A line whose `strip()` is empty. */
  predicate IsBlank(s: string)
  {
    forall i :: 0 <= i < |s| ==> IsSpace(s[i])
  }

  /** The index of the first newline in `s`, or `|s|` when there is none. */
  function LineEnd(s: string): (k: nat)
    ensures k <= |s|
    ensures k < |s| ==> s[k] == '\n'
    ensures forall i :: 0 <= i < k ==> s[i] != '\n'
  {
    if s == [] || s[0] == '\n' then 0 else 1 + LineEnd(s[1..])
  }

  /** `text.splitlines()` with `'\n'` as the only separator: a final newline
      ends the last line and does not start another. */
  function SplitLines(s: string): (lines: seq<string>)
    ensures forall i :: 0 <= i < |lines| ==> '\n' !in lines[i]
    decreases |s|
  {
    if s == [] then []
    else
      var k := LineEnd(s);
      if k == |s| then [s] else [s[..k]] + SplitLines(s[k + 1..])
  }

  /** `"\n".join(lines)`. */
  function Join(lines: seq<string>): string
  {
    if lines == [] then ""
    else if |lines| == 1 then lines[0]
    else lines[0] + "\n" + Join(lines[1..])
  }

  /** The lines that are not blank, in their order. */
  function NonBlank(lines: seq<string>): (kept: seq<string>)
  {
    if lines == [] then []
    else if IsBlank(lines[0]) then NonBlank(lines[1..])
    else [lines[0]] + NonBlank(lines[1..])
  }

  /** `strip_empty_lines`. */
  function StripEmptyLines(text: string): string
  {
    Join(NonBlank(SplitLines(text)))
  }

  // ---------------------------------------------------------------------------
  // Splitting and joining are inverse

  /** Joining lines that are non-empty and free of newlines, then splitting, gives the lines back. */
  lemma {:induction false} SplitJoin(lines: seq<string>)
    requires forall i :: 0 <= i < |lines| ==> lines[i] != [] && '\n' !in lines[i]
    ensures SplitLines(Join(lines)) == lines
  {
    if |lines| == 1 {
      assert LineEnd(lines[0]) == |lines[0]| by { LineEndNone(lines[0]); }
    } else if |lines| > 1 {
      var head, tail := lines[0], Join(lines[1..]);
      var s := head + "\n" + tail;
      LineEndNone(head);
      LineEndAfter(head, tail);
      assert s[|head| + 1..] == tail;
      SplitJoin(lines[1..]);
      assert s[..|head|] == head;
      JoinNonEmpty(lines[1..]);
    }
  }

  /** Splitting, then joining, gives the text back without a final newline. */
  lemma {:induction false} JoinSplit(s: string)
    ensures Join(SplitLines(s)) == if s != [] && s[|s| - 1] == '\n' then s[..|s| - 1] else s
    decreases |s|
  {
    if s != [] {
      var k := LineEnd(s);
      if k < |s| {
        var line, rest := s[..k], s[k + 1..];
        assert s == line + "\n" + rest;
        assert SplitLines(s) == [line] + SplitLines(rest);
        JoinSplit(rest);
        if rest == [] {
          assert Join(SplitLines(s)) == line;
          assert s[..|s| - 1] == line;
        } else {
          SplitNonEmpty(rest);
          JoinCons(line, SplitLines(rest));
          assert s[|s| - 1] == rest[|rest| - 1];
          if rest[|rest| - 1] == '\n' {
            assert s[..|s| - 1] == line + "\n" + rest[..|rest| - 1];
          }
        }
      }
    }
  }

  lemma JoinCons(line: string, lines: seq<string>)
    requires lines != []
    ensures Join([line] + lines) == line + "\n" + Join(lines)
  {
    assert ([line] + lines)[1..] == lines;
  }

  lemma {:induction false} LineEndNone(s: string)
    requires '\n' !in s
    ensures LineEnd(s) == |s|
    decreases |s|
  {
    if s != [] {
      LineEndNone(s[1..]);
    }
  }

  lemma {:induction false} LineEndAfter(head: string, tail: string)
    requires '\n' !in head
    ensures LineEnd(head + "\n" + tail) == |head|
    decreases |head|
  {
    if head != [] {
      assert (head + "\n" + tail)[1..] == head[1..] + "\n" + tail;
      LineEndAfter(head[1..], tail);
    }
  }

  lemma JoinNonEmpty(lines: seq<string>)
    requires lines != [] && lines[0] != []
    ensures Join(lines) != []
  {
  }

  lemma SplitNonEmpty(s: string)
    requires s != []
    ensures SplitLines(s) != []
  {
  }

  // ---------------------------------------------------------------------------
  // Filtering

  /** The kept lines are exactly the non-blank lines, and filtering follows
      concatenation, so kept lines stay in their order. */
  lemma {:induction false} NonBlankAppend(a: seq<string>, b: seq<string>)
    ensures NonBlank(a + b) == NonBlank(a) + NonBlank(b)
    decreases |a|
  {
    if a == [] {
      assert a + b == b;
    } else {
      assert (a + b)[0] == a[0] && (a + b)[1..] == a[1..] + b;
      NonBlankAppend(a[1..], b);
      if !IsBlank(a[0]) {
        assert [a[0]] + (NonBlank(a[1..]) + NonBlank(b)) == ([a[0]] + NonBlank(a[1..])) + NonBlank(b);
      }
    }
  }

  /** A line is kept exactly when it occurs in the input and is not blank. */
  lemma {:induction false} NonBlankMembers(lines: seq<string>)
    ensures forall l :: l in NonBlank(lines) <==> l in lines && !IsBlank(l)
    ensures forall i :: 0 <= i < |NonBlank(lines)| ==> !IsBlank(NonBlank(lines)[i])
  {
    if lines != [] {
      NonBlankMembers(lines[1..]);
      assert lines == [lines[0]] + lines[1..];
    }
  }

  /** Filtering lines that are all non-blank keeps them all. */
  lemma {:induction false} NonBlankKeepsAll(lines: seq<string>)
    requires forall i :: 0 <= i < |lines| ==> !IsBlank(lines[i])
    ensures NonBlank(lines) == lines
  {
    if lines != [] {
      NonBlankKeepsAll(lines[1..]);
    }
  }

  /** The kept lines are empty exactly when every line is blank. */
  lemma {:induction false} NonBlankEmpty(lines: seq<string>)
    ensures NonBlank(lines) == [] <==> forall i :: 0 <= i < |lines| ==> IsBlank(lines[i])
  {
    if lines != [] {
      NonBlankEmpty(lines[1..]);
      assert forall i :: 0 < i < |lines| ==> lines[i] == lines[1..][i - 1];
    }
  }

  // ---------------------------------------------------------------------------
  // strip_empty_lines

  /** The output's lines are the input's non-blank lines, verbatim and in
      order; none of them is blank. */
  lemma OutputLines(text: string)
    ensures SplitLines(StripEmptyLines(text)) == NonBlank(SplitLines(text))
    ensures forall l :: l in SplitLines(StripEmptyLines(text)) <==> l in SplitLines(text) && !IsBlank(l)
  {
    var kept := NonBlank(SplitLines(text));
    NonBlankMembers(SplitLines(text));
    forall i | 0 <= i < |kept| ensures kept[i] != [] && '\n' !in kept[i] {
      assert kept[i] in SplitLines(text);
    }
    SplitJoin(kept);
  }

  /** The output has no blank line at all: it neither starts nor ends with a
      newline, and never holds two newlines in a row. */
  lemma NoEmptyLines(text: string)
    ensures forall l :: l in SplitLines(StripEmptyLines(text)) ==> !IsBlank(l)
    ensures var out := StripEmptyLines(text);
      out != [] ==> out[0] != '\n' && out[|out| - 1] != '\n'
    ensures var out := StripEmptyLines(text);
      forall i :: 0 <= i < |out| - 1 ==> !(out[i] == '\n' && out[i + 1] == '\n')
  {
    OutputLines(text);
    var kept := NonBlank(SplitLines(text));
    NonBlankMembers(SplitLines(text));
    forall i | 0 <= i < |kept| ensures kept[i] != [] && '\n' !in kept[i] {
      assert kept[i] in SplitLines(text);
    }
    JoinShape(kept);
  }

  /** Joining non-empty lines free of newlines yields text that starts and ends
      inside a line and never has two newlines in a row. */
  lemma {:induction false} JoinShape(lines: seq<string>)
    requires forall i :: 0 <= i < |lines| ==> lines[i] != [] && '\n' !in lines[i]
    ensures var out := Join(lines);
      (out == [] <==> lines == []) &&
      (out != [] ==> out[0] != '\n' && out[|out| - 1] != '\n') &&
      forall i :: 0 <= i < |out| - 1 ==> !(out[i] == '\n' && out[i + 1] == '\n')
  {
    if |lines| > 1 {
      JoinShape(lines[1..]);
      var head, tail := lines[0], Join(lines[1..]);
      var out := head + "\n" + tail;
      assert forall i :: 0 <= i < |head| ==> out[i] == head[i];
      assert out[|head|] == '\n';
      assert forall i :: |head| < i < |out| ==> out[i] == tail[i - |head| - 1];
    }
  }

  /** Empty or all-blank input yields the empty string, and nothing else does. */
  lemma EmptyOutput(text: string)
    ensures StripEmptyLines(text) == [] <==> forall l :: l in SplitLines(text) ==> IsBlank(l)
  {
    var lines := SplitLines(text);
    var kept := NonBlank(lines);
    NonBlankEmpty(lines);
    NonBlankMembers(lines);
    forall i | 0 <= i < |kept| ensures kept[i] != [] && '\n' !in kept[i] {
      assert kept[i] in lines;
    }
    JoinShape(kept);
  }

  /** Stripping twice is stripping once. */
  lemma Idempotent(text: string)
    ensures StripEmptyLines(StripEmptyLines(text)) == StripEmptyLines(text)
  {
    OutputLines(text);
    var kept := NonBlank(SplitLines(text));
    NonBlankMembers(SplitLines(text));
    NonBlankKeepsAll(kept);
  }
}
