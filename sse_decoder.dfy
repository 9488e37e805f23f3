/**
 * The whole Server-Sent-Events decoder (`sseParserStream` after text
 * decoding): line framing, blank-line grouping, then one record per group.
 */
module SseDecoder {
  import opened Wrappers
  import opened SseLines
  import opened SseGrouping
  import opened SseFields

  /** `combineSseFields(lines.map(parseEventLine))` for one group. */
  function DecodeGroup(group: seq<string>): (r: SseRecord)
    requires NoEmptyLine(group)
    ensures Lookup(r, "data").Some?
  {
    CombinedData(ParseAll(group));
    CombineSseFields(ParseAll(group))
  }

  /** The groups of the stream's lines, the last line being the one `flush` enqueues. */
  function StreamGroups(chunks: seq<string>): (groups: seq<seq<string>>)
    ensures forall k :: 0 <= k < |groups| ==> NoEmptyLine(groups[k])
  {
    GroupsHaveNoEmptyLine(Feed(chunks));
    Groups(Feed(chunks))
  }

  /** The records the decoder produces for a finite stream of text chunks. */
  function Decode(chunks: seq<string>): (records: seq<SseRecord>)
    ensures |records| == |StreamGroups(chunks)|
  {
    var groups := StreamGroups(chunks);
    seq(|groups|, k requires 0 <= k < |groups| => DecodeGroup(groups[k]))
  }

  /**
   * No line reaching `parseEventLine` is empty, so the pattern always
   * matches and the mapping stage never reports an error.
   */
  lemma ParsingNeverFails(chunks: seq<string>)
    ensures forall k, i :: 0 <= k < |StreamGroups(chunks)| && 0 <= i < |StreamGroups(chunks)[k]| ==>
      ParseEventLine(StreamGroups(chunks)[k][i]).Some?
  {
    forall k, i | 0 <= k < |StreamGroups(chunks)| && 0 <= i < |StreamGroups(chunks)[k]|
      ensures ParseEventLine(StreamGroups(chunks)[k][i]).Some?
    {
      ParseTotal(StreamGroups(chunks)[k][i]);
    }
  }

  /** One record per empty line of the stream, and each record carries `data`. */
  lemma DecodeCount(chunks: seq<string>)
    ensures |Decode(chunks)| == CountEmpty(Feed(chunks))
    ensures forall k :: 0 <= k < |Decode(chunks)| ==> Lookup(Decode(chunks)[k], "data").Some?
  {
    GroupCount(Feed(chunks));
    forall k | 0 <= k < |Decode(chunks)|
      ensures Lookup(Decode(chunks)[k], "data").Some?
    {
      CombinedData(ParseAll(StreamGroups(chunks)[k]));
    }
  }

  /**
   * Decoding chunk by chunk yields the records of the whole text in one
   * chunk, provided no `\r\n` is split between two chunks.
   */
  lemma DecodeTransparent(chunks: seq<string>)
    requires NoSplitCrlf(chunks)
    ensures Decode(chunks) == Decode([Text(chunks)])
  {
    var whole := [Text(chunks)];
    FeedTransparent(chunks);
    FeedTransparent(whole);
    assert AllButLast(whole) == [];
    assert Text(whole) == Text(chunks);
  }

  /** Lines with no empty line among them give no record at all: the trailing group is dropped. */
  lemma TrailingGroupDropped(chunks: seq<string>)
    requires forall k :: 0 <= k < |Feed(chunks)| ==> Feed(chunks)[k] != ""
    ensures Decode(chunks) == []
  {
    NoBlankNoGroup(Feed(chunks));
  }

  /** A single chunk holding one line and no terminator is one pending line. */
  lemma FeedOneLine(l: string)
    requires NoBreaks(l)
    ensures Feed([l]) == [l]
  {
    FeedStep([], l);
    assert [] + [l] == [l];
    assert "" + l == l && l + "" == l;
    SplitPrefix(l, "");
  }

  /** A line never followed by an empty line produces nothing. */
  lemma OrphanLine(l: string)
    requires NoBreaks(l) && l != ""
    ensures Decode([l]) == []
  {
    FeedOneLine(l);
    TrailingGroupDropped([l]);
  }

  /** `data: orphan` with no blank line after it produces nothing. */
  lemma OrphanExample()
    ensures Decode(["data: orphan"]) == []
  {
    OrphanLine("data: orphan");
  }

  /** `x\r` then `\ny\n\n`: the split `\r\n` counts as two terminators. */
  lemma FeedSplitCrlf(x: string, y: string)
    requires NoBreaks(x) && NoBreaks(y)
    ensures Feed([x + "\r", "\n" + y + "\n\n"]) == [x, "", y, "", ""]
  {
    var c1, c2 := x + "\r", "\n" + y + "\n\n";
    FeedCrChunk(x);
    SplitLfLine(y);
    FeedStep([c1], c2);
    assert [c1] + [c2] == [c1, c2];
    assert AllButLast([x, ""]) == [x];
    assert "" + c2 == c2;
  }

  /** A first chunk ending in `\r` finishes its line and leaves an empty one pending. */
  lemma FeedCrChunk(x: string)
    requires NoBreaks(x)
    ensures Feed([x + "\r"]) == [x, ""]
  {
    var c1 := x + "\r";
    FeedStep([], c1);
    assert [] + [c1] == [c1];
    assert "" + c1 == c1;
    SplitTrailingCR(x);
  }

  /** `\ny\n\n` splits into an empty line, `y`, and two more empty lines. */
  lemma SplitLfLine(y: string)
    requires NoBreaks(y)
    ensures Split("\n" + y + "\n\n") == ["", y, "", ""]
  {
    SplitLineTwoLf(y);
    SplitBreak('\n', y + "\n\n");
    assert "\n" + y + "\n\n" == ['\n'] + (y + "\n\n");
  }

  /** `\n\n` is two terminators between three empty lines. */
  lemma SplitTwoLf()
    ensures Split("\n\n") == ["", "", ""]
  {
    SplitBreak('\n', "\n");
    SplitBreak('\n', "");
    assert ['\n'] + "\n" == "\n\n";
    assert ['\n'] + "" == "\n";
  }

  /** The state after one more line, given the state before it. */
  lemma GroupAfter(lines: seq<string>, g: Grouping, line: string, next: seq<string>)
    requires GroupLines(lines) == g && next == lines + [line]
    ensures GroupLines(next) == GroupStep(g, line)
  {
    GroupLinesStep(lines, line);
  }

  /** A one-line group closed by an empty line. */
  lemma GroupOneLine(pre: seq<string>, a: string, g: Grouping)
    requires a != "" && GroupLines(pre) == g
    ensures GroupLines(pre + [a, ""]) == Grouping(g.emitted + [g.current + [a]], [])
  {
    GroupAfter(pre, g, a, pre + [a]);
    GroupAfter(pre + [a], Grouping(g.emitted, g.current + [a]), "", pre + [a, ""]);
  }

  /** Two one-line groups, then an empty line that closes an empty group. */
  lemma GroupSplitCrlf(a: string, b: string)
    requires a != "" && b != ""
    ensures Groups([a, "", b, "", ""]) == [[a], [b], []]
  {
    var g0 := Grouping([], []);
    assert GroupLines([]) == g0;
    GroupOneLine([], a, g0);
    assert [] + [a, ""] == [a, ""];
    assert [] + [a] == [a];
    assert [] + [[a]] == [[a]];
    var g1 := Grouping([[a]], []);
    GroupOneLine([a, ""], b, g1);
    assert [a, ""] + [b, ""] == [a, "", b, ""];
    assert [] + [b] == [b];
    assert [a, "", b, ""] + [""] == [a, "", b, "", ""];
    GroupAfter([a, "", b, ""], Grouping([[a], [b]], []), "", [a, "", b, "", ""]);
  }

  /** A group holding the one line `data: v`. */
  lemma DecodeDataLine(v: string)
    requires NoLineTerminator(v)
    ensures DecodeGroup(["data: " + v]) == [("data", v)]
  {
    var l := "data: " + v;
    assert "data" + ": " + v == l;
    ParseFieldExample(l, "data", v);
    var f := Field(Some("data"), v);
    ParseAllOf([l], [f]);
    WhereSnoc([], f, IsValidId);
    WhereSnoc([], f, IsEvent);
    WhereSnoc([], f, IsData);
    WhereSnoc([], f, IsValidRetry);
    assert [] + [f] == [f];
    assert Values([f]) == [v];
    assert SseFieldsObject([f]) == [("id", None), ("type", None), ("data", Some(v)), ("retry", None)];
    FilterFour(None, None, v, None);
  }

  /** The empty group still yields a record, with empty `data`. */
  lemma DecodeEmptyGroup()
    ensures DecodeGroup([]) == [("data", "")]
  {
    assert ParseAll([]) == [];
    assert SseFieldsObject([]) == [("id", None), ("type", None), ("data", Some("")), ("retry", None)];
    FilterFour(None, None, "", None);
  }

  /**
   * A `\r\n` split across the chunks `data: a\r` and `\ndata: b\n\n`
   * yields three records, `a`, `b` and an empty one, where the text in one
   * chunk yields the records `a\nb` and an empty one (`OneChunkRecords`):
   * the flag that would skip the `\n` is never raised.
   */
  lemma SplitCrlfRecords(x: string, y: string)
    requires NoBreaks(x) && NoBreaks(y) && NoLineTerminator(x) && NoLineTerminator(y)
    ensures Decode(["data: " + x + "\r", "\n" + ("data: " + y) + "\n\n"])
         == [[("data", x)], [("data", y)], [("data", "")]]
  {
    var a, b := "data: " + x, "data: " + y;
    var chunks := [a + "\r", "\n" + b + "\n\n"];
    DataLineNoBreaks(x);
    DataLineNoBreaks(y);
    SplitCrlfGroups(a, b);
    DecodeDataLine(x);
    DecodeDataLine(y);
    DecodeEmptyGroup();
    DecodeThree(chunks, a, b);
  }

  /** A stream whose groups are `[a]`, `[b]` and `[]` decodes group by group. */
  lemma DecodeThree(chunks: seq<string>, a: string, b: string)
    requires a != "" && b != ""
    requires StreamGroups(chunks) == [[a], [b], []]
    ensures Decode(chunks) == [DecodeGroup([a]), DecodeGroup([b]), DecodeGroup([])]
  {
  }

  /** A `data: v` line is a non-empty line without terminators when `v` has none. */
  lemma DataLineNoBreaks(v: string)
    requires NoBreaks(v)
    ensures NoBreaks("data: " + v) && "data: " + v != ""
  {
    var l := "data: " + v;
    assert l[0] == 'd';
    forall k | 0 <= k < |l| ensures !IsBreak(l[k]) {
      if k >= 6 {
        assert l[k] == v[k - 6];
      }
    }
  }

  /** The lines of the split `\r\n` stream form the groups `[a]`, `[b]` and `[]`. */
  lemma SplitCrlfGroups(a: string, b: string)
    requires NoBreaks(a) && NoBreaks(b) && a != "" && b != ""
    ensures StreamGroups([a + "\r", "\n" + b + "\n\n"]) == [[a], [b], []]
  {
    FeedSplitCrlf(a, b);
    GroupSplitCrlf(a, b);
  }

  /** The same with `a` and `b`. */
  lemma SplitCrlfExample()
    ensures Decode(["data: a\r", "\ndata: b\n\n"]) == [[("data", "a")], [("data", "b")], [("data", "")]]
  {
    assert "data: " + "a" + "\r" == "data: a\r";
    assert "\n" + ("data: " + "b") + "\n\n" == "\ndata: b\n\n";
    SplitCrlfRecords("a", "b");
  }

  /** A single chunk is split as a whole. */
  lemma FeedOneChunk(w: string)
    ensures Feed([w]) == Split(w)
  {
    FeedStep([], w);
    assert [] + [w] == [w];
    assert "" + w == w;
  }

  /** `\r\ny\n\n` splits into an empty line, `y`, and two more empty lines. */
  lemma SplitCrlfLine(y: string)
    requires NoBreaks(y)
    ensures Split("\r\n" + y + "\n\n") == ["", y, "", ""]
  {
    var t := "\r\n" + y + "\n\n";
    SplitLineTwoLf(y);
    SplitAtBreak(t);
    assert t[2..] == y + "\n\n";
  }

  /** `y\n\n` splits into `y` and two empty lines. */
  lemma SplitLineTwoLf(y: string)
    requires NoBreaks(y)
    ensures Split(y + "\n\n") == [y, "", ""]
  {
    SplitTwoLf();
    SplitBeforeBreak(y, "\n\n", ["", ""]);
  }

  /** A line without terminators in front of text that starts with a terminator. */
  lemma SplitBeforeBreak(x: string, t: string, rest: seq<string>)
    requires NoBreaks(x) && Split(t) == [""] + rest
    ensures Split(x + t) == [x] + rest
  {
    SplitPrefix(x, t);
    assert x + "" == x;
  }

  /** The same text in one chunk: `x`, `y`, then the two empty lines `\n\n` leaves. */
  lemma FeedOneChunkCrlf(x: string, y: string)
    requires NoBreaks(x) && NoBreaks(y)
    ensures Feed([x + "\r\n" + y + "\n\n"]) == [x, y, "", ""]
  {
    var t := "\r\n" + y + "\n\n";
    var w := x + "\r\n" + y + "\n\n";
    assert w == x + t;
    FeedOneChunk(w);
    SplitCrlfLine(y);
    SplitBeforeBreak(x, t, [y, "", ""]);
  }

  /** Those lines form the group `[x, y]`, then an empty group. */
  lemma GroupOneChunkCrlf(a: string, b: string)
    requires a != "" && b != ""
    ensures Groups([a, b, "", ""]) == [[a, b], []]
  {
    var g0 := Grouping([], []);
    assert GroupLines([]) == g0;
    assert [] + [a] == [a];
    GroupAfter([], g0, a, [a]);
    var g1 := Grouping([], [a]);
    assert [a] + [b] == [a, b];
    GroupAfter([a], g1, b, [a, b]);
    var g2 := Grouping([], [a, b]);
    assert [a, b] + [""] == [a, b, ""];
    GroupAfter([a, b], g2, "", [a, b, ""]);
    var g3 := Grouping([[a, b]], []);
    assert GroupStep(g2, "") == g3;
    assert [a, b, ""] + [""] == [a, b, "", ""];
    GroupAfter([a, b, ""], g3, "", [a, b, "", ""]);
  }

  /** The lines `data: x` and `data: y` parse to two `data` fields. */
  lemma ParseTwoDataLines(x: string, y: string)
    requires NoLineTerminator(x) && NoLineTerminator(y)
    ensures ParseAll(["data: " + x, "data: " + y]) == [Field(Some("data"), x), Field(Some("data"), y)]
  {
    var a, b := "data: " + x, "data: " + y;
    assert "data" + ": " + x == a;
    assert "data" + ": " + y == b;
    ParseFieldExample(a, "data", x);
    ParseFieldExample(b, "data", y);
    ParseAllOf([a, b], [Field(Some("data"), x), Field(Some("data"), y)]);
  }

  /** Two `data` fields give only `data`, their values joined by `\n`. */
  lemma TwoDataProperties(fields: seq<ParsedLine>, x: string, y: string)
    requires fields == [Field(Some("data"), x), Field(Some("data"), y)]
    ensures SseFieldsObject(fields) == [("id", None), ("type", None), ("data", Some(x + "\n" + y)), ("retry", None)]
  {
    var f0, f1 := fields[0], fields[1];
    WhereTwo(f0, f1, IsValidId);
    WhereTwo(f0, f1, IsEvent);
    WhereTwo(f0, f1, IsData);
    WhereTwo(f0, f1, IsValidRetry);
    assert Values([f0, f1]) == [x, y];
    assert [x, y][1..] == [y];
    assert Join([x, y]) == x + "\n" + Join([y]);
  }

  /** A group of the two lines `data: x` and `data: y`. */
  lemma DecodeTwoDataLines(x: string, y: string)
    requires NoLineTerminator(x) && NoLineTerminator(y)
    ensures DecodeGroup(["data: " + x, "data: " + y]) == [("data", x + "\n" + y)]
  {
    ParseTwoDataLines(x, y);
    TwoDataProperties(ParseAll(["data: " + x, "data: " + y]), x, y);
    FilterFour(None, None, x + "\n" + y, None);
  }

  /**
   * The text of `SplitCrlfRecords` in a single chunk: the `\r\n` is one
   * terminator, so the two `data` lines share a record, and the final empty
   * line that `flush` enqueues closes an empty group, which still yields a
   * record.
   */
  lemma OneChunkRecords(x: string, y: string)
    requires NoBreaks(x) && NoBreaks(y) && NoLineTerminator(x) && NoLineTerminator(y)
    ensures Decode([("data: " + x) + "\r\n" + ("data: " + y) + "\n\n"])
         == [[("data", x + "\n" + y)], [("data", "")]]
  {
    var a, b := "data: " + x, "data: " + y;
    var chunks := [a + "\r\n" + b + "\n\n"];
    DataLineNoBreaks(x);
    DataLineNoBreaks(y);
    FeedOneChunkCrlf(a, b);
    GroupOneChunkCrlf(a, b);
    assert StreamGroups(chunks) == [[a, b], []];
    DecodeTwoDataLines(x, y);
    DecodeEmptyGroup();
  }

  /** The same with `a` and `b`: two records, against the three of `SplitCrlfExample`. */
  lemma OneChunkExample()
    ensures Decode(["data: a\r\ndata: b\n\n"]) == [[("data", "a\nb")], [("data", "")]]
  {
    assert ("data: " + "a") + "\r\n" + ("data: " + "b") + "\n\n" == "data: a\r\ndata: b\n\n";
    assert "a" + "\n" + "b" == "a\nb";
    OneChunkRecords("a", "b");
  }
}
