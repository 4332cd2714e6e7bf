/** The line-oriented parser of the audit exception list: split_kv and parse_exceptions. */
module ExceptionParser {
  import opened Options
  import opened PyText

  type Entry = map<string, string>

  /** value[1:-1] when the value is quoted; a lone quote is both ends of itself and becomes empty. */
  function Unquote(v: string): string {
    if v != [] && v[0] == v[|v| - 1] && (v[0] == '\"' || v[0] == '\'') then
      if |v| == 1 then "" else v[1..|v| - 1]
    else v
  }

  /** split_kv; None where line.split(":", 1) has one part and unpacking it raises ValueError. */
  function SplitKv(line: string): Option<(string, string)> {
    var i := Colon(line);
    if i == |line| then None else Some((Strip(line[..i]), Unquote(Strip(line[i + 1..]))))
  }

  predicate Skipped(line: string) {
    line == "" || StartsWith(line, "#") || StartsWith(line, "version:") || StartsWith(line, "exceptions:")
  }

  predicate IsItem(raw: string) {
    !Skipped(Strip(raw)) && StartsWith(Strip(raw), "- ")
  }

  /** The exceptions list and the entry being read; an empty dict is falsy, hence Flush. */
  datatype State = State(entries: seq<Entry>, current: Option<Entry>)

  function Flush(s: State): seq<Entry> {
    if s.current.Some? && s.current.value != map[] then s.entries + [s.current.value] else s.entries
  }

  function Put(e: Entry, kv: (string, string)): Entry {
    e[kv.0 := kv.1]
  }

  /** One line; None is a ValueError. */
  function Step(s: State, raw: string): Option<State> {
    var line := Strip(raw);
    if Skipped(line) then Some(s)
    else if StartsWith(line, "- ") then
      var item := Strip(line[2..]);
      if item == "" then Some(State(Flush(s), Some(map[])))
      else if SplitKv(item).None? then None
      else Some(State(Flush(s), Some(Put(map[], SplitKv(item).value))))
    else if s.current.Some? && ':' in line then
      if SplitKv(line).None? then None else Some(State(s.entries, Some(Put(s.current.value, SplitKv(line).value))))
    else Some(s)
  }

  function Feed(s: State, lines: seq<string>): Option<State> {
    if lines == [] then Some(s) else
      var r := Feed(s, lines[..|lines| - 1]);
      if r.None? then None else Step(r.value, lines[|lines| - 1])
  }

  const START := State([], None)

  /** The parsed entries, or None if a line raised. */
  function Parse(lines: seq<string>): Option<seq<Entry>> {
    var r := Feed(START, lines);
    if r.None? then None else Some(Flush(r.value))
  }

  method ParseExceptions(lines: seq<string>) returns (r: Option<seq<Entry>>)
    ensures r == Parse(lines)
  {
    var exceptions: seq<Entry> := [];
    var current: Option<Entry> := None;
    for i := 0 to |lines|
      invariant Feed(START, lines[..i]) == Some(State(exceptions, current))
    {
      assert lines[..i + 1][..i] == lines[..i];
      var line := Strip(lines[i]);
      if Skipped(line) {
      } else if StartsWith(line, "- ") {
        if current.Some? && current.value != map[] {
          exceptions := exceptions + [current.value];
        }
        current := Some(map[]);
        line := Strip(line[2..]);
        if line != "" {
          var kv := SplitKv(line);
          if kv.None? {
            FailureStays(START, lines, i + 1);
            return None;
          }
          current := Some(Put(current.value, kv.value));
        }
      } else if current.Some? && ':' in line {
        var kv := SplitKv(line);
        if kv.None? {
          FailureStays(START, lines, i + 1);
          return None;
        }
        current := Some(Put(current.value, kv.value));
      }
    }
    assert lines[..|lines|] == lines;
    if current.Some? && current.value != map[] {
      exceptions := exceptions + [current.value];
    }
    return Some(exceptions);
  }

  lemma {:induction false} FailureStays(s: State, lines: seq<string>, i: nat)
    requires i <= |lines| && Feed(s, lines[..i]).None?
    ensures Feed(s, lines).None?
  {
    if i == |lines| {
      assert lines[..i] == lines;
    } else {
      assert lines[..|lines| - 1][..i] == lines[..i];
      FailureStays(s, lines[..|lines| - 1], i);
    }
  }

  // ---- one entry per item line ----

  /** An item line always has text after its dash. */
  lemma ItemHasText(raw: string)
    requires IsItem(raw)
    ensures Strip(Strip(raw)[2..]) != ""
  {
    var line := Strip(raw);
    StripTrims(raw);
    assert line[..2] == "- " && line[1] == ' ';
    var last := line[|line| - 1];
    assert !IsSpace(last) && |line| > 2;
    assert last == line[2..][|line| - 3];
    StripTrims(line[2..]);
  }

  function Items(lines: seq<string>): nat {
    if lines == [] then 0 else Items(lines[..|lines| - 1]) + if IsItem(lines[|lines| - 1]) then 1 else 0
  }

  /** No entry is lost or invented: every line list that parses has one entry per item line. */
  lemma {:induction false} OneEntryPerItem(lines: seq<string>)
    requires Feed(START, lines).Some?
    ensures var s := Feed(START, lines).value;
      (s.current.Some? ==> s.current.value != map[]) && |Flush(s)| == Items(lines)
  {
    if lines != [] {
      OneEntryPerItem(lines[..|lines| - 1]);
      var s := Feed(START, lines[..|lines| - 1]).value;
      var raw := lines[|lines| - 1];
      if IsItem(raw) {
        ItemHasText(raw);
        var kv := SplitKv(Strip(Strip(raw)[2..])).value;
        assert kv.0 in Put(map[], kv);
      } else if s.current.Some? && SplitKv(Strip(raw)).Some? {
        assert SplitKv(Strip(raw)).value.0 in Put(s.current.value, SplitKv(Strip(raw)).value);
      }
    }
  }

  // ---- concatenation ----

  lemma {:induction false} FeedConcat(s: State, a: seq<string>, b: seq<string>)
    ensures Feed(s, a + b) == if Feed(s, a).None? then None else Feed(Feed(s, a).value, b)
  {
    if b == [] {
      assert a + b == a;
    } else {
      assert (a + b)[..|a + b| - 1] == a + b[..|b| - 1];
      FeedConcat(s, a, b[..|b| - 1]);
    }
  }

  function Prepend(es: seq<Entry>, r: Option<State>): Option<State> {
    if r.None? then None else Some(State(es + r.value.entries, r.value.current))
  }

  /** The entries already collected do not influence the lines that follow. */
  lemma {:induction false} FeedPrepend(es: seq<Entry>, s: State, lines: seq<string>)
    ensures Feed(State(es + s.entries, s.current), lines) == Prepend(es, Feed(s, lines))
  {
    if lines != [] {
      FeedPrepend(es, s, lines[..|lines| - 1]);
      var r := Feed(s, lines[..|lines| - 1]);
      if r.Some? {
        assert Flush(State(es + r.value.entries, r.value.current)) == es + Flush(r.value);
      }
    }
  }

  /** The first line that is not skipped, if any, is an item. */
  predicate StartsFresh(lines: seq<string>) {
    lines == [] || IsItem(lines[0]) || (Skipped(Strip(lines[0])) && StartsFresh(lines[1..]))
  }

  lemma {:induction false} FreshFeed(s: State, lines: seq<string>)
    requires StartsFresh(lines)
    ensures Feed(s, lines).None? <==> Feed(START, lines).None?
    ensures Feed(s, lines).Some? ==> Flush(Feed(s, lines).value) == Flush(s) + Flush(Feed(START, lines).value)
  {
    if lines != [] {
      var first, rest := lines[0], lines[1..];
      assert lines == [first] + rest;
      FeedConcat(s, [first], rest);
      FeedConcat(START, [first], rest);
      FeedOne(s, first);
      FeedOne(START, first);
      if IsItem(first) {
        var t := Step(START, first);
        if t.Some? {
          FeedPrepend(Flush(s), t.value, rest);
          assert Flush(s) + t.value.entries == Flush(s);
          assert Step(s, first).value == State(Flush(s) + t.value.entries, t.value.current);
          FlushPrepend(Flush(s), Feed(t.value, rest));
        }
      } else {
        FreshFeed(s, rest);
      }
    }
  }

  lemma FeedOne(s: State, raw: string)
    ensures Feed(s, [raw]) == Step(s, raw)
  {
    assert [raw][..0] == [];
    assert Feed(s, [raw][..0]) == Some(s);
  }

  lemma FlushPrepend(es: seq<Entry>, r: Option<State>)
    ensures r.Some? ==> Flush(Prepend(es, r).value) == es + Flush(r.value)
  {
  }

  /** Parsing a list in two halves, when the second starts with an item. */
  lemma ParseConcat(a: seq<string>, b: seq<string>)
    requires StartsFresh(b)
    ensures Parse(a + b) ==
      if Parse(a).None? || Parse(b).None? then None else Some(Parse(a).value + Parse(b).value)
  {
    FeedConcat(START, a, b);
    if Feed(START, a).Some? {
      FreshFeed(Feed(START, a).value, b);
    }
  }

  /** Order and contents: the entry of an item is what its own lines, up to the next item, parse to. */
  lemma EntryOfItem(a: seq<string>, b: seq<string>, c: seq<string>)
    requires b != [] && IsItem(b[0]) && Items(b) == 1 && StartsFresh(c)
    requires Parse(a + b + c).Some?
    ensures Parse(b).Some? && |Parse(b).value| == 1
    ensures Items(a) < |Parse(a + b + c).value| && Parse(a + b + c).value[Items(a)] == Parse(b).value[0]
  {
    ParseConcat(a + b, c);
    ParseConcat(a, b);
    OneEntryPerItem(a);
    OneEntryPerItem(b);
  }

  // ---- what an item's lines say ----

  /** Lines that say nothing: blank ones, comments, the two headers, and those without a colon. */
  predicate SaysNothing(line: string) {
    || line == "" || (|line| >= 1 && line[0] == '#')
    || (|line| >= 8 && line[..8] == "version:") || (|line| >= 11 && line[..11] == "exceptions:")
    || ':' !in line
  }

  /** The pairs of the lines that follow an item. */
  function FieldPairs(lines: seq<string>): Pairs {
    if lines == [] then [] else
      var init, line := FieldPairs(lines[..|lines| - 1]), Strip(lines[|lines| - 1]);
      if SaysNothing(line) || SplitKv(line).None? then init else init + [SplitKv(line).value]
  }

  /** A line is an item exactly when, stripped, it starts with a dash and a blank. */
  lemma IsItemExact(raw: string)
    ensures IsItem(raw) <==> |Strip(raw)| >= 2 && Strip(raw)[..2] == "- "
  {
    if StartsWith(Strip(raw), "- ") {
      ItemIsNotSkipped(Strip(raw));
    }
  }

  /** Lines before the first item are ignored. */
  lemma {:induction false} PreambleIgnored(lines: seq<string>)
    requires forall l :: l in lines ==> !IsItem(l)
    ensures Feed(START, lines) == Some(START)
  {
    if lines != [] {
      PreambleIgnored(lines[..|lines| - 1]);
      assert !IsItem(lines[|lines| - 1]);
    }
  }

  lemma FieldStep(s: State, raw: string)
    requires s.current.Some? && !IsItem(raw)
    ensures var line := Strip(raw);
      Step(s, raw) == if SaysNothing(line) || SplitKv(line).None? then Some(s)
                      else Some(State(s.entries, Some(Put(s.current.value, SplitKv(line).value))))
  {
    var line := Strip(raw);
    IsItemExact(raw);
    ColonExact(line);
    assert "#"[0] == '#' && |line| >= 1 ==> (line[..1] == "#" <==> line[0] == '#');
  }

  lemma {:induction false} FieldsFeed(e: Entry, first: (string, string), lines: seq<string>)
    requires (forall l :: l in lines ==> !IsItem(l)) && e == ToEntry([first])
    ensures Feed(State([], Some(e)), lines) == Some(State([], Some(ToEntry([first] + FieldPairs(lines)))))
  {
    if lines != [] {
      var init, last := lines[..|lines| - 1], lines[|lines| - 1];
      FieldsFeed(e, first, init);
      FieldStep(State([], Some(ToEntry([first] + FieldPairs(init)))), last);
      var line := Strip(last);
      if !SaysNothing(line) && SplitKv(line).Some? {
        var ps := [first] + FieldPairs(lines);
        assert ps == ([first] + FieldPairs(init)) + [SplitKv(line).value];
        assert ps[..|ps| - 1] == [first] + FieldPairs(init);
      }
    } else {
      assert [first] + FieldPairs(lines) == [first];
    }
  }

  /** An item line and the lines up to the next item give one entry: the pair behind the dash, and then
      those of the lines that say something, later values replacing earlier ones. */
  lemma BlockParses(item: string, lines: seq<string>)
    requires IsItem(item) && (forall l :: l in lines ==> !IsItem(l))
    ensures var text := SplitKv(Strip(Strip(item)[2..]));
      Parse([item] + lines) == if text.None? then None else Some([ToEntry([text.value] + FieldPairs(lines))])
  {
    ItemHasText(item);
    var text := SplitKv(Strip(Strip(item)[2..]));
    FeedConcat(START, [item], lines);
    FeedOne(START, item);
    if text.Some? {
      var first := text.value;
      assert [first][..0] == [] && ToEntry([first]) == Put(map[], first);
      FieldsFeed(Put(map[], first), first, lines);
      var ps := [first] + FieldPairs(lines);
      assert ps[|ps| - 1].0 in ToEntry(ps);
      assert Flush(State([], Some(ToEntry(ps)))) == [ToEntry(ps)];
      assert Step(START, item) == Some(State([], Some(Put(map[], first))));
    }
  }

  // ---- printing ----

  type Pairs = seq<(string, string)>

  /** The dict an entry's pairs make: later values win. */
  function ToEntry(ps: Pairs): Entry {
    if ps == [] then map[] else Put(ToEntry(ps[..|ps| - 1]), ps[|ps| - 1])
  }

  function Quoted(p: (string, string)): string {
    p.0 + ": \"" + p.1 + "\""
  }

  function PrintEntry(ps: Pairs): seq<string> {
    if ps == [] then []
    else if |ps| == 1 then ["- " + Quoted(ps[0])] else PrintEntry(ps[..|ps| - 1]) + ["  " + Quoted(ps[|ps| - 1])]
  }

  function Print(es: seq<Pairs>): seq<string> {
    if es == [] then [] else PrintEntry(es[0]) + Print(es[1..])
  }

  /** A key that survives on any line. */
  predicate PlainKey(k: string) {
    Trimmed(k) && ':' !in k && OneLine(k)
  }

  /** A key that also survives at the start of a line, where the parser looks for other things. */
  predicate LeadingKey(k: string) {
    PlainKey(k) && !StartsWith(k, "#") && !StartsWith(k, "- ") && k != "version" && k != "exceptions"
  }

  predicate Printable(ps: Pairs) {
    && ps != [] && PlainKey(ps[0].0)
    && (forall i :: 1 <= i < |ps| ==> LeadingKey(ps[i].0))
    && (forall i :: 0 <= i < |ps| ==> OneLine(ps[i].1))
  }

  lemma QuotedTrimmed(p: (string, string))
    requires PlainKey(p.0)
    ensures Trimmed(Quoted(p)) && SplitKv(Quoted(p)) == Some(p)
  {
    var line := Quoted(p);
    var value := "\"" + p.1 + "\"";
    assert line[|line| - 1] == '\"' && (p.0 == [] ==> line[0] == ':') && (p.0 != [] ==> line[0] == p.0[0]);
    assert line == p.0 + ":" + (" " + value);
    ColonAfter(p.0, " " + value);
    assert line[..|p.0|] == p.0 && line[|p.0| + 1..] == " " + value;
    StripKeeps(p.0);
    StripPadded(" ", value);
    assert value[1..|value| - 1] == p.1;
  }

  /** Splitting "key: text", where the text has no white space at its ends. */
  lemma SplitPlain(key: string, text: string)
    requires Trimmed(key) && ':' !in key && Trimmed(text)
    ensures SplitKv(key + ": " + text) == Some((key, Unquote(text)))
  {
    var line := key + ": " + text;
    assert line == key + ":" + (" " + text);
    ColonAfter(key, " " + text);
    assert line[..|key|] == key && line[|key| + 1..] == " " + text;
    StripKeeps(key);
    StripPadded(" ", text);
  }

  /** A value that does not start and end with the same quote is taken as it stands. */
  lemma UnquotedValue(key: string, value: string)
    requires Trimmed(key) && ':' !in key && Trimmed(value)
    requires value == "" || value[0] != value[|value| - 1] || (value[0] != '\"' && value[0] != '\'')
    ensures SplitKv(key + ": " + value) == Some((key, value))
  {
    SplitPlain(key, value);
  }

  /** Single and double quotes around a value are removed, whatever is between them. */
  lemma QuotedValue(key: string, value: string, quote: char)
    requires Trimmed(key) && ':' !in key && (quote == '\"' || quote == '\'')
    ensures SplitKv(key + ": " + ([quote] + value + [quote])) == Some((key, value))
  {
    var text := [quote] + value + [quote];
    assert text[0] == quote && text[|text| - 1] == quote && text[1..|text| - 1] == value;
    SplitPlain(key, text);
  }

  /** A plain key with a colon after it starts with a keyword and its colon only if it is the keyword. */
  lemma KeywordOnly(p: (string, string), word: string)
    requires ':' !in p.0 && ':' !in word
    ensures StartsWith(Quoted(p), word + ":") ==> p.0 == word
  {
    var line := Quoted(p);
    var value := " \"" + p.1 + "\"";
    assert line == p.0 + ":" + value;
    ColonAfter(p.0, value);
    if StartsWith(line, word + ":") {
      assert line == word + ":" + line[|word| + 1..];
      ColonAfter(word, line[|word| + 1..]);
      assert line[..|word|] == word && line[..|p.0|] == p.0;
    }
  }

  lemma ItemIsNotSkipped(line: string)
    requires StartsWith(line, "- ")
    ensures !Skipped(line)
  {
    OtherStart(line, "- ", "#");
    OtherStart(line, "- ", "version:");
    OtherStart(line, "- ", "exceptions:");
  }

  lemma ItemLine(s: State, p: (string, string))
    requires PlainKey(p.0)
    ensures Step(s, "- " + Quoted(p)) == Some(State(Flush(s), Some(Put(map[], p))))
    ensures IsItem("- " + Quoted(p))
  {
    var line := Quoted(p);
    var raw := "- " + line;
    QuotedTrimmed(p);
    StripKeeps(line);
    assert raw[..2] == "- " && raw[2..] == line;
    assert raw[0] == '-' && raw[|raw| - 1] == line[|line| - 1];
    StripKeeps(raw);
    ItemIsNotSkipped(raw);
  }

  /** A leading key is mistaken neither for a comment, nor for an item, nor for a header. */
  lemma LeadingKeyIsAField(p: (string, string))
    requires LeadingKey(p.0)
    ensures !Skipped(Quoted(p)) && !StartsWith(Quoted(p), "- ")
  {
    var line := Quoted(p);
    assert |line| > |p.0| && line[|p.0|] == ':' && line[..|p.0|] == p.0;
    assert "version" + ":" == "version:" && "exceptions" + ":" == "exceptions:";
    KeywordOnly(p, "version");
    KeywordOnly(p, "exceptions");
    assert p.0 != [] ==> line[..1] == p.0[..1];
    assert |p.0| >= 2 ==> line[..2] == p.0[..2];
    assert |line[..1]| == 1 && line[..1][0] == line[0];
    assert |line| >= 2 && line[..2][1] == line[1] && line[..2][0] == line[0];
  }

  lemma FieldLine(s: State, p: (string, string))
    requires LeadingKey(p.0) && s.current.Some?
    ensures Step(s, "  " + Quoted(p)) == Some(State(s.entries, Some(Put(s.current.value, p))))
  {
    QuotedTrimmed(p);
    StripPadded("  ", Quoted(p));
    LeadingKeyIsAField(p);
    assert Quoted(p)[|p.0|] == ':';
  }

  lemma {:induction false} EntryParses(ps: Pairs)
    requires Printable(ps)
    ensures Feed(START, PrintEntry(ps)) == Some(State([], Some(ToEntry(ps))))
    ensures PrintEntry(ps) != [] && IsItem(PrintEntry(ps)[0])
  {
    if |ps| == 1 {
      ItemLine(START, ps[0]);
      FeedOne(START, "- " + Quoted(ps[0]));
      assert ps[..0] == [];
    } else {
      var init := ps[..|ps| - 1];
      EntryParses(init);
      FeedConcat(START, PrintEntry(init), ["  " + Quoted(ps[|ps| - 1])]);
      FeedOne(State([], Some(ToEntry(init))), "  " + Quoted(ps[|ps| - 1]));
      FieldLine(State([], Some(ToEntry(init))), ps[|ps| - 1]);
    }
  }

  function Entries(es: seq<Pairs>): seq<Entry> {
    if es == [] then [] else [ToEntry(es[0])] + Entries(es[1..])
  }

  lemma EntryParsesAlone(ps: Pairs)
    requires Printable(ps)
    ensures Parse(PrintEntry(ps)) == Some([ToEntry(ps)]) && PrintEntry(ps) != [] && IsItem(PrintEntry(ps)[0])
  {
    EntryParses(ps);
    var entry := ToEntry(ps);
    assert ps[|ps| - 1].0 in entry;
    assert Flush(State([], Some(entry))) == [entry];
  }

  /** Printing any well-formed entries in the canonical quoted form and parsing them back. */
  lemma {:induction false} PrintThenParse(es: seq<Pairs>)
    requires forall ps :: ps in es ==> Printable(ps)
    ensures Parse(Print(es)) == Some(Entries(es)) && StartsFresh(Print(es))
  {
    if es != [] {
      var first, rest := PrintEntry(es[0]), Print(es[1..]);
      PrintThenParse(es[1..]);
      EntryParsesAlone(es[0]);
      ParseConcat(first, rest);
      assert (first + rest)[0] == first[0];
    }
  }

  // ---- the file ----

  /** parse_exceptions on the text of a file. */
  function ParseText(text: string): Option<seq<Entry>> {
    Parse(ReadLines(text))
  }

  lemma {:induction false} FeedEnded(s: State, lines: seq<string>)
    ensures Feed(s, Ended(lines)) == Feed(s, lines)
  {
    if lines != [] {
      var k := |lines| - 1;
      assert Ended(lines)[..k] == Ended(lines[..k]);
      FeedEnded(s, lines[..k]);
      StripEnded(lines[k]);
    }
  }

  lemma {:induction false} PrintedEntryIsLines(ps: Pairs)
    requires Printable(ps)
    ensures forall l :: l in PrintEntry(ps) ==> OneLine(l)
  {
    if |ps| > 1 {
      PrintedEntryIsLines(ps[..|ps| - 1]);
    }
    assert OneLine(Quoted(ps[|ps| - 1]));
  }

  lemma {:induction false} PrintedIsLines(es: seq<Pairs>)
    requires forall ps :: ps in es ==> Printable(ps)
    ensures forall l :: l in Print(es) ==> OneLine(l)
  {
    if es != [] {
      PrintedEntryIsLines(es[0]);
      PrintedIsLines(es[1..]);
    }
  }

  /** Writing any well-formed entries to a file in the canonical quoted form and parsing the file. */
  lemma WriteThenParse(es: seq<Pairs>)
    requires forall ps :: ps in es ==> Printable(ps)
    ensures ParseText(WriteLines(Print(es))) == Some(Entries(es))
  {
    PrintedIsLines(es);
    WriteThenRead(Print(es));
    FeedEnded(START, Print(es));
    PrintThenParse(es);
  }
}
