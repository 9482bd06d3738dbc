/**
 * The data file as text: every field is written followed by `endl` and read
 * with `getline` (or `>>` followed by `ignore()`), so at the level of this
 * model the file is the sequence of its newline-terminated lines.
 */
module Lines {

  ghost predicate NoNewlines(lines: seq<string>) {
    forall i :: 0 <= i < |lines| ==> '\n' !in lines[i]
  }

  lemma NoNewlinesConcat(a: seq<string>, b: seq<string>)
    requires NoNewlines(a) && NoNewlines(b)
    ensures NoNewlines(a + b)
  {
    forall i | 0 <= i < |a + b| ensures '\n' !in (a + b)[i] {
      if i >= |a| {
        assert (a + b)[i] == b[i - |a|];
      }
    }
  }

  /** The text written for a sequence of lines: each one followed by a newline. */
  function JoinLines(lines: seq<string>): string {
    if lines == [] then [] else lines[0] + "\n" + JoinLines(lines[1..])
  }

  /** Position of the first newline in `s`, or `|s|` if there is none. */
  function NewlineIndex(s: string): (i: nat)
    ensures i <= |s|
    ensures forall j :: 0 <= j < i ==> s[j] != '\n'
    ensures i < |s| ==> s[i] == '\n'
  {
    if s == [] || s[0] == '\n' then 0 else 1 + NewlineIndex(s[1..])
  }

  /** The lines `getline` reads from a text; a last line without a newline still counts. */
  function SplitLines(text: string): seq<string>
    decreases |text|
  {
    if text == [] then []
    else
      var i := NewlineIndex(text);
      if i == |text| then [text] else [text[..i]] + SplitLines(text[i + 1..])
  }

  /** Reading back written lines gives the same lines, provided none of them holds a newline. */
  lemma {:induction false} SplitJoinLines(lines: seq<string>)
    requires NoNewlines(lines)
    ensures SplitLines(JoinLines(lines)) == lines
  {
    if lines != [] {
      var text := JoinLines(lines);
      var first := lines[0];
      var rest := JoinLines(lines[1..]);
      assert text == first + "\n" + rest;
      var i := NewlineIndex(text);
      assert text[|first|] == '\n';
      assert i == |first|;
      assert text[..i] == first;
      assert text[i + 1..] == rest;
      assert NoNewlines(lines[1..]) by {
        forall k | 0 <= k < |lines[1..]| ensures '\n' !in lines[1..][k] {
          assert lines[1..][k] == lines[k + 1];
        }
      }
      SplitJoinLines(lines[1..]);
    }
  }

  /** A field that holds a newline is read back as two lines: the format cannot carry it. */
  lemma NewlineInFieldSplitsIt()
    ensures SplitLines(JoinLines(["a\nb"])) == ["a", "b"]
  {
    var text := JoinLines(["a\nb"]);
    assert text == "a\nb\n";
    assert NewlineIndex(text) == 1;
    assert text[2..] == "b\n";
    assert NewlineIndex("b\n") == 1;
    assert SplitLines("b\n") == ["b"] by {
      assert "b\n"[..1] == "b";
      assert "b\n"[2..] == [];
    }
    assert text[..1] == "a";
  }

  /** Splits a matched slice of `lines` into its two parts, the second starting at `mid`. */
  lemma SliceSplit(lines: seq<string>, pos: nat, a: seq<string>, b: seq<string>, mid: nat)
    requires mid == pos + |a| && mid + |b| <= |lines|
    requires lines[pos..mid + |b|] == a + b
    ensures lines[pos..mid] == a
    ensures lines[mid..mid + |b|] == b
  {
    assert lines[pos..mid] == lines[pos..mid + |b|][..|a|];
    assert lines[mid..mid + |b|] == lines[pos..mid + |b|][|a|..];
  }

  /** The middle part of three concatenated runs of lines is the slice between the other two. */
  lemma MiddleSlice(lines: seq<string>, a: seq<string>, b: seq<string>, c: seq<string>)
    requires lines == a + b + c
    ensures |a| + |b| <= |lines| && lines[|a|..|a| + |b|] == b
  {
    assert lines[|a|..|a| + |b|] == (a + b)[|a|..];
  }

  /** A run of lines between two others, itself made of two runs, regroups with either neighbour. */
  lemma SplitMiddle(lines: seq<string>, a: seq<string>, m: seq<string>, b: seq<string>, c: seq<string>, z: seq<string>)
    requires lines == a + m + z && m == b + c
    ensures lines == a + b + (c + z)
    ensures lines == a + b + c + z
  {
  }

  /** Concatenation of lines regroups freely. */
  lemma ConcatAssoc(a: seq<string>, b: seq<string>, c: seq<string>)
    ensures a + (b + c) == (a + b) + c
  {
  }
}
