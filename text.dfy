/** The parts of Go's `strings` and `bufio` packages that the helm module
    relies on, over Dafny strings (sequences of characters). */
module Text {
  import opened Options

  /** White space as Go's `unicode.IsSpace` defines it. */
  predicate IsSpace(c: char) {
    || c == ' ' || c == '\t' || c == '\n' || c == '\U{000B}' || c == '\U{000C}' || c == '\r'
    || c == '\U{0085}' || c == '\U{00A0}' || c == '\U{1680}'
    || ('\U{2000}' <= c <= '\U{200A}')
    || c == '\U{2028}' || c == '\U{2029}' || c == '\U{202F}' || c == '\U{205F}' || c == '\U{3000}'
  }

  predicate AllSpace(s: string) {
    forall i :: 0 <= i < |s| ==> IsSpace(s[i])
  }

  /** `s` neither starts nor ends with white space. */
  predicate Trimmed(s: string) {
    s == [] || (!IsSpace(s[0]) && !IsSpace(s[|s| - 1]))
  }

  /** Drops the leading white space of `s`. */
  function TrimLeft(s: string): (r: string)
    ensures |r| <= |s|
    decreases |s|
  {
    if s != [] && IsSpace(s[0]) then TrimLeft(s[1..]) else s
  }

  /** `TrimLeft` keeps a suffix of `s` that does not start with white
      space, and what it drops is white space. */
  lemma {:induction false} TrimLeftDropsSpace(s: string)
    ensures TrimLeft(s) == s[|s| - |TrimLeft(s)|..]
    ensures TrimLeft(s) == [] || !IsSpace(TrimLeft(s)[0])
    ensures AllSpace(s[..|s| - |TrimLeft(s)|])
    decreases |s|
  {
    if s != [] && IsSpace(s[0]) {
      TrimLeftDropsSpace(s[1..]);
      var n := |s| - |TrimLeft(s)|;
      assert s[1..][|s| - 1 - |TrimLeft(s)|..] == s[n..];
      assert s[..n] == [s[0]] + s[1..][..n - 1];
    }
  }

  /** Drops the trailing white space of `s`. */
  function TrimRight(s: string): (r: string)
    ensures |r| <= |s|
    decreases |s|
  {
    if s != [] && IsSpace(s[|s| - 1]) then TrimRight(s[..|s| - 1]) else s
  }

  /** `TrimRight` keeps a prefix of `s` that does not end with white
      space, and what it drops is white space. */
  lemma {:induction false} TrimRightDropsSpace(s: string)
    ensures TrimRight(s) == s[..|TrimRight(s)|]
    ensures TrimRight(s) == [] || !IsSpace(TrimRight(s)[|TrimRight(s)| - 1])
    ensures AllSpace(s[|TrimRight(s)|..])
    decreases |s|
  {
    if s != [] && IsSpace(s[|s| - 1]) {
      TrimRightDropsSpace(s[..|s| - 1]);
      var n := |TrimRight(s)|;
      assert s[..|s| - 1][..n] == s[..n];
      assert s[n..] == s[..|s| - 1][n..] + [s[|s| - 1]];
    }
  }

  /** Go's `strings.TrimSpace`. */
  function TrimSpace(s: string): (r: string)
    ensures |r| <= |s|
  {
    TrimRight(TrimLeft(s))
  }

  /** The result of `TrimSpace` neither starts nor ends with white space. */
  lemma TrimSpaceTrimmed(s: string)
    ensures Trimmed(TrimSpace(s))
  {
    var l := TrimLeft(s);
    TrimLeftDropsSpace(s);
    TrimRightDropsSpace(l);
    var r := TrimRight(l);
    if r != [] {
      assert r[0] == l[0];
    }
  }

  /** `TrimSpace` leaves nothing exactly when `s` is all white space. */
  lemma TrimSpaceEmpty(s: string)
    ensures TrimSpace(s) == [] <==> AllSpace(s)
  {
    var l := TrimLeft(s);
    TrimLeftDropsSpace(s);
    TrimRightDropsSpace(l);
    if TrimSpace(s) == [] {
      assert s == s[..|s| - |l|] + l;
    }
  }

  /** `TrimLeft` drops exactly a white-space prefix. */
  lemma {:induction false} TrimLeftPadded(pre: string, y: string)
    requires AllSpace(pre)
    requires y == [] || !IsSpace(y[0])
    ensures TrimLeft(pre + y) == y
    decreases |pre|
  {
    if pre == [] {
      assert pre + y == y;
    } else {
      assert (pre + y)[1..] == pre[1..] + y;
      TrimLeftPadded(pre[1..], y);
    }
  }

  /** `TrimRight` drops exactly a white-space suffix. */
  lemma {:induction false} TrimRightPadded(x: string, post: string)
    requires AllSpace(post)
    requires x == [] || !IsSpace(x[|x| - 1])
    ensures TrimRight(x + post) == x
    decreases |post|
  {
    if post == [] {
      assert x + post == x;
    } else {
      var s := x + post;
      assert s[..|s| - 1] == x + post[..|post| - 1];
      TrimRightPadded(x, post[..|post| - 1]);
    }
  }

  /** What `TrimSpace` removes is exactly the white-space padding: trimming
      `pre + x + post` gives back `x`. */
  lemma TrimSpacePadded(pre: string, x: string, post: string)
    requires AllSpace(pre) && AllSpace(post)
    requires Trimmed(x)
    ensures TrimSpace(pre + x + post) == x
  {
    if x == [] {
      assert AllSpace(pre + x + post);
      TrimSpaceEmpty(pre + x + post);
    } else {
      assert pre + x + post == pre + (x + post);
      assert (x + post)[0] == x[0];
      TrimLeftPadded(pre, x + post);
      TrimRightPadded(x, post);
    }
  }

  /** Whether `sub` stands in `s` at position `i`. */
  predicate OccursAt(s: string, sub: string, i: nat) {
    i + |sub| <= |s| && s[i..i + |sub|] == sub
  }

  predicate StartsWith(s: string, prefix: string) {
    |prefix| <= |s| && s[..|prefix|] == prefix
  }

  lemma OccursShift(s: string, sub: string)
    requires s != []
    ensures forall j: nat :: 0 < j ==> (OccursAt(s, sub, j) <==> OccursAt(s[1..], sub, j - 1))
  {
    forall j: nat | 0 < j
      ensures OccursAt(s, sub, j) <==> OccursAt(s[1..], sub, j - 1)
    {
      if j + |sub| <= |s| {
        assert s[1..][j - 1..j - 1 + |sub|] == s[j..j + |sub|];
      }
    }
  }

  /** Go's `strings.Index`: a position of `sub` in `s`, if any (the first
      one, as `IndexOfFirst` shows). */
  function IndexOf(s: string, sub: string): (r: Option<nat>)
    ensures r.Some? ==> OccursAt(s, sub, r.value)
    decreases |s|
  {
    if StartsWith(s, sub) then
      assert s[0..|sub|] == s[..|sub|];
      Some(0)
    else if s == [] then
      None
    else
      match IndexOf(s[1..], sub)
      case None => None
      case Some(k) =>
        assert s[1..][k..k + |sub|] == s[k + 1..k + 1 + |sub|];
        Some(k + 1)
  }

  /** `IndexOf` finds the first occurrence, and finds none only when there
      is none. */
  lemma {:induction false} IndexOfFirst(s: string, sub: string)
    ensures IndexOf(s, sub).Some? ==> forall j: nat :: j < IndexOf(s, sub).value ==> !OccursAt(s, sub, j)
    ensures IndexOf(s, sub).None? ==> forall j: nat :: !OccursAt(s, sub, j)
    decreases |s|
  {
    if !StartsWith(s, sub) {
      if s != [] {
        IndexOfFirst(s[1..], sub);
        OccursShift(s, sub);
      }
    }
  }

  /** Go's `strings.Contains`, which is `strings.Index(s, sub) >= 0`. */
  function Contains(s: string, sub: string): (r: bool)
    ensures r ==> exists i: nat :: OccursAt(s, sub, i)
  {
    IndexOf(s, sub).Some?
  }

  /** `Contains` holds exactly when `sub` occurs somewhere in `s`. */
  lemma ContainsOccurs(s: string, sub: string)
    ensures Contains(s, sub) <==> exists i: nat :: OccursAt(s, sub, i)
  {
    IndexOfFirst(s, sub);
  }

  /** Every string contains itself. */
  lemma ContainsItself(s: string)
    ensures Contains(s, s)
  {
    assert OccursAt(s, s, 0);
    ContainsOccurs(s, s);
  }

  function LowerChar(c: char): char {
    if 'A' <= c <= 'Z' then (c as int + 32) as char else c
  }

  /** Go's `strings.ToLower` on ASCII letters, character by character. */
  function ToLower(s: string): (r: string)
    ensures |r| == |s|
  {
    seq(|s|, i requires 0 <= i < |s| => LowerChar(s[i]))
  }

  /** The lower case holds no upper-case ASCII letter and keeps every other
      character. */
  lemma ToLowerLowers(s: string)
    ensures forall i :: 0 <= i < |s| ==> !('A' <= ToLower(s)[i] <= 'Z')
    ensures forall i :: 0 <= i < |s| && !('A' <= s[i] <= 'Z') ==> ToLower(s)[i] == s[i]
  {
  }

  /** Text without upper-case ASCII letters is its own lower case. */
  lemma ToLowerKeeps(s: string)
    requires forall i :: 0 <= i < |s| ==> !('A' <= s[i] <= 'Z')
    ensures ToLower(s) == s
  {
    var r := ToLower(s);
    assert forall i :: 0 <= i < |s| ==> r[i] == s[i];
  }

  /** The text of `s` up to its first line feed (all of `s` when it has none). */
  function FirstLine(s: string): (r: string)
    ensures |r| <= |s| && r == s[..|r|] && '\n' !in r
    ensures |r| < |s| ==> s[|r|] == '\n'
    decreases |s|
  {
    if s == [] || s[0] == '\n' then [] else [s[0]] + FirstLine(s[1..])
  }

  /** `bufio.dropCR`: one carriage return at the end of a line is dropped. */
  function DropCR(line: string): (r: string)
    ensures |r| <= |line| && r == line[..|r|]
  {
    if line != [] && line[|line| - 1] == '\r' then line[..|line| - 1] else line
  }

  /** The tokens that a `bufio.Scanner` with its default `ScanLines` split
      function yields for `s`: the lines in order, an empty final line
      dropped, each without its line feed. */
  function Lines(s: string): (r: seq<string>)
    ensures s == [] <==> r == []
    decreases |s|
  {
    if s == [] then []
    else
      var line := FirstLine(s);
      [DropCR(line)] + (if |line| < |s| then Lines(s[|line| + 1..]) else [])
  }

  /** No line holds a line feed. */
  lemma {:induction false} LinesHaveNoFeed(s: string)
    ensures forall k :: 0 <= k < |Lines(s)| ==> '\n' !in Lines(s)[k]
    decreases |s|
  {
    if s != [] {
      var line := FirstLine(s);
      assert forall c :: c in DropCR(line) ==> c in line;
      if |line| < |s| {
        LinesHaveNoFeed(s[|line| + 1..]);
      }
    }
  }

  /** The inverse of `Lines`: every line followed by a line feed. */
  function Unlines(lines: seq<string>): string {
    if lines == [] then [] else lines[0] + "\n" + Unlines(lines[1..])
  }

  predicate PlainLine(line: string) {
    '\n' !in line && (line == [] || line[|line| - 1] != '\r')
  }

  lemma {:induction false} FirstLineOf(line: string, rest: string)
    requires '\n' !in line
    ensures FirstLine(line + "\n" + rest) == line
  {
    if line != [] {
      assert (line + "\n" + rest)[1..] == line[1..] + "\n" + rest;
      FirstLineOf(line[1..], rest);
    }
  }

  /** Splitting the joined lines gives back the lines. */
  lemma {:induction false} LinesUnlines(lines: seq<string>)
    requires forall k :: 0 <= k < |lines| ==> PlainLine(lines[k])
    ensures Lines(Unlines(lines)) == lines
  {
    if lines != [] {
      var rest := Unlines(lines[1..]);
      FirstLineOf(lines[0], rest);
      var s := lines[0] + "\n" + rest;
      assert s[|lines[0]| + 1..] == rest;
      LinesUnlines(lines[1..]);
    }
  }

  /** Joining the lines gives back the text, with a line feed added at the end
      when the text did not end with one. */
  lemma {:induction false} UnlinesLines(s: string)
    requires '\r' !in s
    ensures Unlines(Lines(s)) == if s == [] || s[|s| - 1] == '\n' then s else s + "\n"
    decreases |s|
  {
    if s != [] {
      var line := FirstLine(s);
      if |line| < |s| {
        var rest := s[|line| + 1..];
        LinesStep(s);
        UnlinesLines(rest);
        if rest != [] {
          assert rest[|rest| - 1] == s[|s| - 1];
        }
      } else {
        assert '\r' !in line;
        assert line == s[..|line|] == s;
      }
    }
  }

  /** A text whose first line ends with a line feed and holds no carriage
      return is that line, the feed and the rest, and so are its lines. */
  lemma LinesStep(s: string)
    requires '\r' !in s && s != [] && |FirstLine(s)| < |s|
    ensures var line := FirstLine(s);
            && s == line + "\n" + s[|line| + 1..]
            && Unlines(Lines(s)) == line + "\n" + Unlines(Lines(s[|line| + 1..]))
  {
    var line := FirstLine(s);
    assert '\r' !in line;
    assert DropCR(line) == line;
    var rest := s[|line| + 1..];
    assert s == line + "\n" + rest;
    assert Lines(s) == [line] + Lines(rest);
  }
}
