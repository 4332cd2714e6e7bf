/** The string operations of the release tools: strip, startswith and a split at the first colon. */
module PyText {

  /** The characters str.strip() removes. */
  predicate IsSpace(c: char) {
    var n := c as int;
    || 9 <= n <= 13 || 28 <= n <= 32 || n == 0x85 || n == 0xA0 || n == 0x1680 || 0x2000 <= n <= 0x200A
    || n == 0x2028 || n == 0x2029 || n == 0x202F || n == 0x205F || n == 0x3000
  }

  function TrimLeft(s: string): string {
    if s != [] && IsSpace(s[0]) then TrimLeft(s[1..]) else s
  }

  function TrimRight(s: string): string {
    if s != [] && IsSpace(s[|s| - 1]) then TrimRight(s[..|s| - 1]) else s
  }

  function Strip(s: string): string {
    TrimRight(TrimLeft(s))
  }

  /** No white space at either end: what Strip leaves alone. */
  predicate Trimmed(s: string) {
    s == [] || (!IsSpace(s[0]) && !IsSpace(s[|s| - 1]))
  }

  predicate StartsWith(s: string, p: string) {
    |p| <= |s| && s[..|p|] == p
  }

  lemma OtherStart(s: string, p: string, q: string)
    requires StartsWith(s, p) && |p| > 0 && |q| > 0 && p[0] != q[0]
    ensures !StartsWith(s, q)
  {
    assert s[..|p|][0] == s[0];
    assert |q| <= |s| ==> s[..|q|][0] == s[0];
  }

  lemma {:induction false} TrimLeftEnds(s: string)
    ensures TrimLeft(s) == [] || !IsSpace(TrimLeft(s)[0])
    ensures |TrimLeft(s)| <= |s| && TrimLeft(s) == s[|s| - |TrimLeft(s)|..]
    ensures forall c :: c in s && !IsSpace(c) ==> c in TrimLeft(s)
  {
    if s != [] && IsSpace(s[0]) {
      TrimLeftEnds(s[1..]);
    }
  }

  lemma {:induction false} TrimRightEnds(s: string)
    ensures TrimRight(s) == [] || !IsSpace(TrimRight(s)[|TrimRight(s)| - 1])
    ensures |TrimRight(s)| <= |s| && TrimRight(s) == s[..|TrimRight(s)|]
    ensures forall c :: c in s && !IsSpace(c) ==> c in TrimRight(s)
  {
    if s != [] && IsSpace(s[|s| - 1]) {
      TrimRightEnds(s[..|s| - 1]);
    }
  }

  /** Strip leaves a trimmed string that keeps every character that is not white space. */
  lemma StripTrims(s: string)
    ensures Trimmed(Strip(s))
    ensures forall c :: c in s && !IsSpace(c) ==> c in Strip(s)
  {
    TrimLeftEnds(s);
    TrimRightEnds(TrimLeft(s));
  }

  /** Strip removes white space at the two ends and nothing else. */
  lemma StripExact(s: string) returns (before: string, after: string)
    ensures s == before + Strip(s) + after && Trimmed(Strip(s))
    ensures (forall c :: c in before ==> IsSpace(c)) && (forall c :: c in after ==> IsSpace(c))
  {
    StripTrims(s);
    before := LeftSpace(s);
    after := RightSpace(TrimLeft(s));
  }

  lemma {:induction false} LeftSpace(s: string) returns (before: string)
    ensures s == before + TrimLeft(s) && forall c :: c in before ==> IsSpace(c)
  {
    before := [];
    if s != [] && IsSpace(s[0]) {
      var rest := LeftSpace(s[1..]);
      before := [s[0]] + rest;
      assert s == [s[0]] + s[1..];
    }
  }

  lemma {:induction false} RightSpace(s: string) returns (after: string)
    ensures s == TrimRight(s) + after && forall c :: c in after ==> IsSpace(c)
  {
    after := [];
    if s != [] && IsSpace(s[|s| - 1]) {
      var rest := RightSpace(s[..|s| - 1]);
      after := rest + [s[|s| - 1]];
      assert s == s[..|s| - 1] + [s[|s| - 1]];
    }
  }

  lemma StartsWithExact(s: string, p: string)
    ensures StartsWith(s, p) <==> exists rest :: s == p + rest
  {
    if StartsWith(s, p) {
      assert s == p + s[|p|..];
    }
  }

  lemma StripKeeps(s: string)
    requires Trimmed(s)
    ensures Strip(s) == s
  {
  }

  lemma {:induction false} StripPadded(pad: string, s: string)
    requires Trimmed(s) && forall c :: c in pad ==> IsSpace(c)
    ensures Strip(pad + s) == s
  {
    TrimLeftPadded(pad, s);
    StripKeeps(s);
  }

  lemma {:induction false} TrimLeftPadded(pad: string, s: string)
    requires Trimmed(s) && forall c :: c in pad ==> IsSpace(c)
    ensures TrimLeft(pad + s) == s
  {
    if pad == [] {
      assert pad + s == s;
    } else {
      assert (pad + s)[1..] == pad[1..] + s;
      TrimLeftPadded(pad[1..], s);
    }
  }

  /** The position of the first colon, or the length of the string. */
  function Colon(s: string): (i: nat)
    ensures i <= |s|
  {
    if s == [] then 0 else if s[0] == ':' then 0 else 1 + Colon(s[1..])
  }

  lemma {:induction false} ColonExact(s: string)
    ensures Colon(s) < |s| <==> ':' in s
    ensures Colon(s) < |s| ==> s[Colon(s)] == ':'
    ensures ':' !in s[..Colon(s)]
  {
    if s != [] && s[0] != ':' {
      ColonExact(s[1..]);
      assert s == [s[0]] + s[1..];
      assert s[..Colon(s)] == [s[0]] + s[1..][..Colon(s[1..])];
    }
  }

  lemma {:induction false} ColonAfter(key: string, rest: string)
    requires ':' !in key
    ensures Colon(key + ":" + rest) == |key|
  {
    if key == [] {
      assert key + ":" + rest == ":" + rest;
    } else {
      assert (key + ":" + rest)[1..] == key[1..] + ":" + rest;
      ColonAfter(key[1..], rest);
    }
  }

  // ---- lines of a text file ----

  predicate IsBreak(c: char) {
    c == '\n' || c == '\r'
  }

  /** The position of the first line break, or the length of the text. */
  function Break(s: string): (i: nat)
    ensures i <= |s| && (i < |s| ==> IsBreak(s[i]))
    ensures forall j :: 0 <= j < i ==> !IsBreak(s[j])
  {
    if s == [] || IsBreak(s[0]) then 0 else 1 + Break(s[1..])
  }

  /** Iteration over a file opened as text: every line ends in a newline, except possibly the last; the
      breaks \r and \r\n are translated. */
  function ReadLines(text: string): seq<string>
    decreases |text|
  {
    if text == [] then [] else
      var i := Break(text);
      if i == |text| then [text] else
        var skip := if text[i] == '\r' && i + 1 < |text| && text[i + 1] == '\n' then 2 else 1;
        [text[..i] + "\n"] + ReadLines(text[i + skip..])
  }

  predicate OneLine(s: string) {
    forall c :: c in s ==> !IsBreak(c)
  }

  function Ended(lines: seq<string>): (r: seq<string>)
    ensures |r| == |lines|
    ensures forall i :: 0 <= i < |lines| ==> r[i] == lines[i] + "\n"
  {
    seq(|lines|, i requires 0 <= i < |lines| => lines[i] + "\n")
  }

  /** The text of a file with these lines. */
  function WriteLines(lines: seq<string>): string {
    if lines == [] then "" else lines[0] + "\n" + WriteLines(lines[1..])
  }

  lemma FirstLine(first: string, rest: string)
    requires OneLine(first)
    ensures var text := first + "\n" + rest;
      Break(text) == |first| && text[|first|] == '\n' && text[..|first|] == first && text[|first| + 1..] == rest
  {
    var text := first + "\n" + rest;
    assert text[|first|] == '\n';
    assert forall j :: 0 <= j < |first| ==> text[j] == first[j] && first[j] in first;
  }

  lemma {:induction false} WriteThenRead(lines: seq<string>)
    requires forall l :: l in lines ==> OneLine(l)
    ensures ReadLines(WriteLines(lines)) == Ended(lines)
  {
    if lines != [] {
      FirstLine(lines[0], WriteLines(lines[1..]));
      WriteThenRead(lines[1..]);
      assert Ended(lines) == [lines[0] + "\n"] + Ended(lines[1..]);
    }
  }

  /** The newline that ends a line is stripped with the white space around it. */
  lemma {:induction false} StripEnded(s: string)
    ensures Strip(s + "\n") == Strip(s)
  {
    var line := s + "\n";
    if s == [] {
      assert line == "\n";
      assert IsSpace(line[0]) && line[1..] == [];
    } else if IsSpace(s[0]) {
      assert line[1..] == s[1..] + "\n";
      StripEnded(s[1..]);
    } else {
      assert line[..|line| - 1] == s;
    }
  }
}
