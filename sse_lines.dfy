/**
 * Line framing of the Server-Sent-Events decoder: the `LineBreakTransformer`
 * stage, which splits chunked text on `\r\n`, `\n` or `\r` and carries the
 * unfinished line over to the next chunk.
 */
module SseLines {

  predicate IsBreak(c: char) {
    c == '\r' || c == '\n'
  }

  predicate NoBreaks(s: string) {
    forall i :: 0 <= i < |s| ==> !IsBreak(s[i])
  }

  predicate StartsWithLF(s: string) {
    |s| > 0 && s[0] == '\n'
  }

  predicate EndsWithCR(s: string) {
    |s| > 0 && s[|s| - 1] == '\r'
  }

  /** The string without its first character (none when empty). */
  function DropFirst(s: string): (r: string)
    ensures s != [] ==> r == s[1..]
  {
    if s == [] then s else s[1..]
  }

  /**
   * The length of the line terminator at the start of `s`: 2 for `\r\n`
   * (the alternation `\r\n|\n|\r` tries it first), 1 for a lone `\r` or
   * `\n`, 0 when `s` does not start with a terminator.
   */
  function TerminatorLength(s: string): (n: nat)
    ensures n <= |s|
    ensures n == 0 <==> s == [] || !IsBreak(s[0])
  {
    if s == [] || !IsBreak(s[0]) then 0
    else if s[0] == '\r' && |s| >= 2 && s[1] == '\n' then 2
    else 1
  }

  /** Puts a character in front of the first line. */
  function ConsLine(c: char, lines: seq<string>): (r: seq<string>)
    requires |lines| >= 1
    ensures |r| == |lines| && r[0] == [c] + lines[0] && r[1..] == lines[1..]
  {
    [[c] + lines[0]] + lines[1..]
  }

  /**
   * `s.split(/\r\n|\n|\r/)`. The result always has at least one element
   * (the text after the last terminator, possibly empty).
   */
  function Split(s: string): (lines: seq<string>)
    ensures |lines| >= 1
    decreases |s|
  {
    if s == [] then [""]
    else
      var n := TerminatorLength(s);
      if n == 0 then ConsLine(s[0], Split(s[1..])) else [""] + Split(s[n..])
  }

  /** The number of line terminators in `s`, a `\r\n` pair counting once. */
  function Terminators(s: string): nat
    decreases |s|
  {
    if s == [] then 0
    else
      var n := TerminatorLength(s);
      if n == 0 then Terminators(s[1..]) else 1 + Terminators(s[n..])
  }

  /** `s` with every `\r` and `\n` removed. */
  function Strip(s: string): (r: string)
    ensures NoBreaks(r)
  {
    if s == [] then ""
    else if IsBreak(s[0]) then Strip(s[1..])
    else [s[0]] + Strip(s[1..])
  }

  /** All lines written one after another, with nothing between them. */
  function Concat(lines: seq<string>): string {
    if lines == [] then "" else lines[0] + Concat(lines[1..])
  }

  /** `lines.join('\n')`: the empty list gives the empty string. */
  function Join(lines: seq<string>): string {
    if |lines| == 0 then ""
    else if |lines| == 1 then lines[0]
    else lines[0] + "\n" + Join(lines[1..])
  }

  function Last<T>(s: seq<T>): T
    requires |s| > 0
  {
    s[|s| - 1]
  }

  function AllButLast<T>(s: seq<T>): seq<T>
    requires |s| > 0
  {
    s[..|s| - 1]
  }

  /** No line that splitting yields holds a terminator. */
  lemma {:induction false} SplitNoBreaks(s: string)
    ensures forall k :: 0 <= k < |Split(s)| ==> NoBreaks(Split(s)[k])
    decreases |s|
  {
    if s != [] {
      var n := TerminatorLength(s);
      if n == 0 {
        SplitNoBreaks(s[1..]);
        assert NoBreaks([s[0]] + Split(s[1..])[0]);
      } else {
        SplitNoBreaks(s[n..]);
      }
    }
  }

  /** Splitting yields one line more than there are terminators. */
  lemma {:induction false} SplitCount(s: string)
    ensures |Split(s)| == Terminators(s) + 1
    decreases |s|
  {
    if s != [] {
      var n := TerminatorLength(s);
      if n == 0 {
        SplitCount(s[1..]);
      } else {
        SplitCount(s[n..]);
      }
    }
  }

  /** Removing the characters of a terminator does not change the stripped text. */
  lemma StripSkipsTerminator(s: string)
    requires TerminatorLength(s) > 0
    ensures Strip(s) == Strip(s[TerminatorLength(s)..])
  {
    if TerminatorLength(s) == 2 {
      assert s[1..][1..] == s[2..];
    }
  }

  /** The lines hold exactly the non-terminator characters, in order. */
  lemma {:induction false} SplitKeepsText(s: string)
    ensures Concat(Split(s)) == Strip(s)
    decreases |s|
  {
    if s != [] {
      var n := TerminatorLength(s);
      if n == 0 {
        SplitKeepsText(s[1..]);
        var rest := Split(s[1..]);
        assert Concat(rest) == rest[0] + Concat(rest[1..]);
        assert Concat(Split(s)) == ([s[0]] + rest[0]) + Concat(rest[1..]);
      } else {
        SplitKeepsText(s[n..]);
        StripSkipsTerminator(s);
      }
    }
  }

  /** A character that is not a terminator joins the first line. */
  lemma SplitCons(c: char, s: string)
    requires !IsBreak(c)
    ensures Split([c] + s) == ConsLine(c, Split(s))
  {
    assert ([c] + s)[1..] == s;
  }

  /** A terminator other than the first half of `\r\n` starts a new line. */
  lemma SplitBreak(c: char, s: string)
    requires IsBreak(c) && !(c == '\r' && StartsWithLF(s))
    ensures Split([c] + s) == [""] + Split(s)
  {
    assert ([c] + s)[1..] == s;
  }

  /** A line without terminators stays at the head of whatever follows it. */
  lemma {:induction false} SplitPrefix(l: string, t: string)
    requires NoBreaks(l)
    ensures Split(l + t) == [l + Split(t)[0]] + Split(t)[1..]
    decreases |l|
  {
    if l != [] {
      assert l + t == [l[0]] + (l[1..] + t);
      SplitPrefix(l[1..], t);
      SplitCons(l[0], l[1..] + t);
      assert [l[0]] + (l[1..] + Split(t)[0]) == l + Split(t)[0];
    } else {
      assert l + t == t;
      assert Split(t) == [Split(t)[0]] + Split(t)[1..];
      assert l + Split(t)[0] == Split(t)[0];
    }
  }

  /** Splitting inverts `join('\n')` for lines without terminators. */
  lemma {:induction false} SplitJoin(lines: seq<string>)
    requires |lines| >= 1
    requires forall k :: 0 <= k < |lines| ==> NoBreaks(lines[k])
    ensures Split(Join(lines)) == lines
    decreases |lines|
  {
    if |lines| == 1 {
      SplitPrefix(lines[0], "");
      assert lines[0] + "" == lines[0];
    } else {
      var tail := Join(lines[1..]);
      SplitJoin(lines[1..]);
      SplitBreak('\n', tail);
      assert ['\n'] + tail == "\n" + tail;
      SplitPrefix(lines[0], "\n" + tail);
      assert lines[0] + "\n" + tail == lines[0] + ("\n" + tail);
      assert lines[0] + "" == lines[0];
      assert lines == [lines[0]] + lines[1..];
    }
  }

  lemma ConsLineAppend(c: char, a: seq<string>, x: seq<string>)
    requires |a| >= 1
    ensures ConsLine(c, a + x) == ConsLine(c, a) + x
  {
    assert (a + x)[0] == a[0];
    assert (a + x)[1..] == a[1..] + x;
  }

  lemma ConsLineEnds(c: char, a: seq<string>)
    requires |a| >= 2
    ensures AllButLast(ConsLine(c, a)) == ConsLine(c, AllButLast(a))
    ensures Last(ConsLine(c, a)) == Last(a)
  {
    var r := ConsLine(c, a);
    assert Last(r) == r[1..][|a| - 2] == a[1..][|a| - 2];
    assert AllButLast(r) == [r[0]] + r[1..][..|a| - 2];
    assert AllButLast(a) == [a[0]] + a[1..][..|a| - 2];
  }

  /** The case of `SplitAppend` where `s` starts with a character of a line. */
  lemma {:induction false} SplitAppendCons(c: char, s: string, t: string)
    requires !IsBreak(c)
    requires Split(s + t) == AllButLast(Split(s)) + Split(Last(Split(s)) + t)
    ensures Split([c] + s + t) == AllButLast(Split([c] + s)) + Split(Last(Split([c] + s)) + t)
  {
    var R := Split(s);
    var X := Split(Last(R) + t);
    assert [c] + s + t == [c] + (s + t);
    SplitCons(c, s + t);
    SplitCons(c, s);
    assert Split([c] + s + t) == ConsLine(c, AllButLast(R) + X);
    if |R| == 1 {
      assert AllButLast(R) + X == X;
      assert ([c] + R[0]) + t == [c] + (R[0] + t);
      SplitCons(c, R[0] + t);
      var S := ConsLine(c, R);
      assert AllButLast(S) == [] && Last(S) == [c] + R[0];
    } else {
      ConsLineAppend(c, AllButLast(R), X);
      ConsLineEnds(c, R);
    }
  }

  /** A terminator at the front yields an empty first line. */
  lemma SplitAtBreak(s: string)
    requires TerminatorLength(s) > 0
    ensures Split(s) == [""] + Split(s[TerminatorLength(s)..])
  {
  }

  /** Text after `s` does not change the terminator `s` starts with. */
  lemma TerminatorLengthAppend(s: string, t: string)
    requires TerminatorLength(s) > 0
    requires |s| >= 2 || s[0] != '\r' || !StartsWithLF(t)
    ensures TerminatorLength(s + t) == TerminatorLength(s)
  {
    assert (s + t)[0] == s[0];
    if |s| >= 2 {
      assert (s + t)[1] == s[1];
    }
  }

  /** The case of `SplitAppend` where `s` is a single terminator. */
  lemma {:induction false} SplitAppendLoneBreak(c: char, t: string)
    requires IsBreak(c) && !(c == '\r' && StartsWithLF(t))
    ensures Split([c] + t) == AllButLast(Split([c])) + Split(Last(Split([c])) + t)
  {
    SplitBreak(c, t);
    SplitBreak(c, "");
    assert [c] + "" == [c];
    assert "" + t == t;
  }

  /** A terminator that `t` cannot extend is split off `s + t` the same way as off `s`. */
  lemma BreakHead(s: string, t: string)
    requires TerminatorLength(s) > 0 && |s| >= 2
    ensures Split(s + t) == [""] + Split(s[TerminatorLength(s)..] + t)
  {
    TerminatorLengthAppend(s, t);
    SplitAtBreak(s + t);
    assert (s + t)[TerminatorLength(s)..] == s[TerminatorLength(s)..] + t;
  }

  /** The finished lines and the carried piece after a leading terminator. */
  lemma BreakEnds(s: string)
    requires TerminatorLength(s) > 0
    ensures AllButLast(Split(s)) == [""] + AllButLast(Split(s[TerminatorLength(s)..]))
    ensures Last(Split(s)) == Last(Split(s[TerminatorLength(s)..]))
  {
    SplitAtBreak(s);
    EmptyLineEnds(Split(s[TerminatorLength(s)..]));
  }

  /** The case of `SplitAppend` where `s` starts with a terminator and goes on. */
  lemma {:induction false} SplitAppendBreak(s: string, t: string)
    requires TerminatorLength(s) > 0 && |s| >= 2
    requires !(EndsWithCR(s) && StartsWithLF(t))
    ensures Split(s + t) == AllButLast(Split(s)) + Split(Last(Split(s)) + t)
    decreases |s|, 0
  {
    var r := s[TerminatorLength(s)..];
    var A, X := AllButLast(Split(r)), Split(Last(Split(r)) + t);
    calc {
      Split(s + t);
    == { BreakHead(s, t); }
      [""] + Split(r + t);
    == { assert EndsWithCR(r) ==> EndsWithCR(s); SplitAppend(r, t); }
      [""] + (A + X);
    ==
      ([""] + A) + X;
    == { BreakEnds(s); }
      AllButLast(Split(s)) + Split(Last(Split(s)) + t);
    }
  }

  lemma EmptyLineEnds(a: seq<string>)
    requires |a| >= 1
    ensures AllButLast([""] + a) == [""] + AllButLast(a)
    ensures Last([""] + a) == Last(a)
  {
  }

  /**
   * Splitting `s + t` at once agrees with splitting `s`, keeping its last
   * (unfinished) piece and splitting that piece followed by `t` -- unless a
   * `\r` at the end of `s` meets a `\n` at the start of `t`.
   */
  lemma {:induction false} SplitAppend(s: string, t: string)
    requires !(EndsWithCR(s) && StartsWithLF(t))
    ensures Split(s + t) == AllButLast(Split(s)) + Split(Last(Split(s)) + t)
    decreases |s|, 1
  {
    if s == [] {
      assert s + t == t;
      assert "" + t == t;
    } else {
      var n := TerminatorLength(s);
      if n == 0 {
        assert EndsWithCR(s[1..]) ==> EndsWithCR(s);
        SplitAppend(s[1..], t);
        assert s == [s[0]] + s[1..];
        SplitAppendCons(s[0], s[1..], t);
      } else {
        if |s| == 1 {
          assert s == [s[0]];
          SplitAppendLoneBreak(s[0], t);
        } else {
          SplitAppendBreak(s, t);
        }
      }
    }
  }

  /** The lines of a whole stream: what every `transform` and the final `flush` enqueue. */
  function Feed(chunks: seq<string>): (lines: seq<string>)
    ensures |lines| >= 1
  {
    if chunks == [] then [""]
    else
      var before := Feed(AllButLast(chunks));
      AllButLast(before) + Split(Last(before) + Last(chunks))
  }

  /** No line of the stream holds a terminator. */
  lemma {:induction false} FeedNoBreaks(chunks: seq<string>)
    ensures forall k :: 0 <= k < |Feed(chunks)| ==> NoBreaks(Feed(chunks)[k])
  {
    if chunks != [] {
      var before := Feed(AllButLast(chunks));
      FeedNoBreaks(AllButLast(chunks));
      SplitNoBreaks(Last(before) + Last(chunks));
      var lines := Feed(chunks);
      forall k | 0 <= k < |lines|
        ensures NoBreaks(lines[k])
      {
        if k < |before| - 1 {
          assert lines[k] == before[k];
        } else {
          assert lines[k] == Split(Last(before) + Last(chunks))[k - (|before| - 1)];
        }
      }
    }
  }

  /** Concatenation distributes over appending lists of lines. */
  lemma {:induction false} ConcatAppend(a: seq<string>, b: seq<string>)
    ensures Concat(a + b) == Concat(a) + Concat(b)
    decreases |a|
  {
    if a == [] {
      assert a + b == b;
    } else {
      ConcatAppend(a[1..], b);
      assert (a + b)[1..] == a[1..] + b;
    }
  }

  /** Removing terminators distributes over appending text. */
  lemma {:induction false} StripAppend(s: string, t: string)
    ensures Strip(s + t) == Strip(s) + Strip(t)
    decreases |s|
  {
    if s == [] {
      assert s + t == t;
    } else {
      var st := s + t;
      assert st[0] == s[0] && st[1..] == s[1..] + t;
      StripAppend(s[1..], t);
      if !IsBreak(s[0]) {
        assert Strip(st) == [s[0]] + Strip(st[1..]);
        assert ([s[0]] + Strip(s[1..])) + Strip(t) == [s[0]] + (Strip(s[1..]) + Strip(t));
      }
    }
  }

  /** Text without terminators is its own stripped form. */
  lemma {:induction false} StripNoBreaks(s: string)
    requires NoBreaks(s)
    ensures Strip(s) == s
    decreases |s|
  {
    if s != [] {
      StripNoBreaks(s[1..]);
      assert s == [s[0]] + s[1..];
    }
  }

  /**
   * Whatever the chunking, the stream's lines written one after another are
   * its whole text with every `\r` and `\n` removed: splitting loses and
   * adds no other character.
   */
  lemma {:induction false} FeedKeepsText(chunks: seq<string>)
    ensures Concat(Feed(chunks)) == Strip(Text(chunks))
  {
    if chunks != [] {
      var init := AllButLast(chunks);
      var before := Feed(init);
      FeedKeepsText(init);
      FeedNoBreaks(init);
      assert NoBreaks(before[|before| - 1]);
      SplitOffLast(before);
      KeepsTextStep(AllButLast(before), Last(before), Last(chunks), Text(init));
    }
  }

  /** One more chunk: the finished lines, then the carried piece re-split with the chunk. */
  lemma KeepsTextStep(finished: seq<string>, pending: string, chunk: string, text: string)
    requires NoBreaks(pending)
    requires Concat(finished + [pending]) == Strip(text)
    ensures Concat(finished + Split(pending + chunk)) == Strip(text + chunk)
  {
    var lines := Split(pending + chunk);
    var head := Concat(finished);
    assert Concat([pending]) == pending by {
      assert Concat([pending]) == pending + Concat([]);
    }
    calc {
      Concat(finished + lines);
    == { ConcatAppend(finished, lines); }
      head + Concat(lines);
    == { SplitKeepsText(pending + chunk); StripAppend(pending, chunk); StripNoBreaks(pending); }
      head + (pending + Strip(chunk));
    == { ConcatAppend(finished, [pending]); }
      Concat(finished + [pending]) + Strip(chunk);
    == { StripAppend(text, chunk); }
      Strip(text + chunk);
    }
  }

  /** All chunks written one after another. */
  function Text(chunks: seq<string>): string {
    if chunks == [] then "" else Text(AllButLast(chunks)) + Last(chunks)
  }

  /** No chunk boundary falls between the `\r` and the `\n` of a `\r\n`. */
  predicate NoSplitCrlf(chunks: seq<string>) {
    forall k :: 0 < k < |chunks| ==> !(EndsWithCR(Text(chunks[..k])) && StartsWithLF(chunks[k]))
  }

  /**
   * Chunking is transparent as long as no `\r\n` is split across two
   * chunks: the stream yields the lines of its whole text.
   */
  lemma {:induction false} FeedTransparent(chunks: seq<string>)
    requires NoSplitCrlf(chunks)
    ensures Feed(chunks) == Split(Text(chunks))
    decreases |chunks|
  {
    if chunks != [] {
      var init := AllButLast(chunks);
      assert NoSplitCrlf(init) by {
        forall k | 0 < k < |init|
          ensures !(EndsWithCR(Text(init[..k])) && StartsWithLF(init[k]))
        {
          assert init[..k] == chunks[..k];
        }
      }
      FeedTransparent(init);
      if |chunks| > 1 {
        assert chunks[..|chunks| - 1] == init;
        assert !(EndsWithCR(Text(init)) && StartsWithLF(Last(chunks)));
      } else {
        assert Text(init) == "";
      }
      SplitAppend(Text(init), Last(chunks));
    }
  }

  /** One more chunk re-splits the carried piece followed by that chunk. */
  lemma FeedStep(chunks: seq<string>, chunk: string)
    ensures Feed(chunks + [chunk]) == AllButLast(Feed(chunks)) + Split(Last(Feed(chunks)) + chunk)
  {
    assert AllButLast(chunks + [chunk]) == chunks;
  }

  /** The same step, for lines already enqueued and a carried piece. */
  lemma FeedExtends(chunks: seq<string>, emitted: seq<string>, container: string, chunk: string)
    requires emitted + [container] == Feed(chunks)
    ensures Feed(chunks + [chunk]) == emitted + Split(container + chunk)
  {
    FeedStep(chunks, chunk);
    assert AllButLast(emitted + [container]) == emitted;
  }

  /** A piece ending in `\r` finishes its line and carries an empty one. */
  lemma SplitTrailingCR(l: string)
    requires NoBreaks(l)
    ensures Split(l + "\r") == [l, ""]
  {
    calc {
      Split(l + "\r");
    == { SplitPrefix(l, "\r"); }
      [l + Split("\r")[0]] + Split("\r")[1..];
    == { SplitBreak('\r', ""); assert ['\r'] + "" == "\r"; }
      [l + ""] + [""];
    == { assert l + "" == l; }
      [l, ""];
    }
  }

  /** A piece starting with `\n` and carrying no other terminator. */
  lemma SplitLeadingLF(l: string)
    requires NoBreaks(l)
    ensures Split("\n" + l) == ["", l]
  {
    calc {
      Split("\n" + l);
    == { SplitBreak('\n', l); assert ['\n'] + l == "\n" + l; }
      [""] + Split(l);
    == { SplitPrefix(l, ""); assert l + "" == l; }
      [""] + [l + ""];
    == { assert l + "" == l; }
      ["", l];
    }
  }

  /** The first chunk `"a\r"` finishes the line `"a"` and carries an empty one. */
  lemma FeedFirstChunk()
    ensures Feed(["a\r"]) == ["a", ""]
  {
    calc {
      Feed(["a\r"]);
    == { FeedStep([], "a\r"); assert [] + ["a\r"] == ["a\r"]; }
      Split("" + "a\r");
    == { assert "" + "a\r" == "a" + "\r"; SplitTrailingCR("a"); }
      ["a", ""];
    }
  }

  /** The second chunk `"\nb"` starts with a terminator of its own. */
  lemma FeedSecondChunk()
    ensures Feed(["a\r", "\nb"]) == ["a", "", "b"]
  {
    calc {
      Feed(["a\r", "\nb"]);
    == { FeedStep(["a\r"], "\nb"); assert ["a\r"] + ["\nb"] == ["a\r", "\nb"]; FeedFirstChunk(); }
      ["a"] + Split("" + "\nb");
    == { assert "" + "\nb" == "\n" + "b"; SplitLeadingLF("b"); }
      ["a", "", "b"];
    }
  }

  /** The same text in one chunk has one `\r\n` terminator. */
  lemma WholeTextCrlf()
    ensures Split(Text(["a\r", "\nb"])) == ["a", "b"]
  {
    var crlfB := "\r\nb";
    assert Split(crlfB) == ["", "b"] by {
      SplitAtBreak(crlfB);
      assert crlfB[2..] == "b";
      SplitPrefix("b", "");
      assert "b" + "" == "b";
    }
    calc {
      Split(Text(["a\r", "\nb"]));
    == { assert Text(["a\r"]) == "" + "a\r"; assert AllButLast(["a\r", "\nb"]) == ["a\r"]; }
      Split(("" + "a\r") + "\nb");
    == { assert ("" + "a\r") + "\nb" == "a" + crlfB; }
      Split("a" + crlfB);
    == { SplitPrefix("a", crlfB); }
      ["a" + ""] + ["b"];
    == { assert "a" + "" == "a"; }
      ["a", "b"];
    }
  }

  /**
   * The `\r` flag is never raised, so a `\r\n` split across chunks reads as
   * two terminators and produces an extra empty line.
   */
  lemma SplitCrlfAddsEmptyLine()
    ensures Feed(["a\r", "\nb"]) == ["a", "", "b"]
    ensures Split(Text(["a\r", "\nb"])) == ["a", "b"]
  {
    FeedSecondChunk();
    WholeTextCrlf();
  }

  /**
   * The skip of a `\n` that completes a `\r\n` begun in the previous chunk:
   * it applies only while the flag is raised.
   */
  function SkipSplitLF(previousChunkEndedWithCR: bool, chunk: string): (c: string)
    ensures !previousChunkEndedWithCR ==> c == chunk
  {
    if previousChunkEndedWithCR && StartsWithLF(chunk) then DropFirst(chunk) else chunk
  }

  /** A non-empty sequence is its front followed by its last element. */
  lemma SplitOffLast<T>(s: seq<T>)
    requires |s| > 0
    ensures AllButLast(s) + [Last(s)] == s
  {
  }

  /** Every line of `lines` is free of terminators. */
  predicate Clean(lines: seq<string>) {
    forall k :: 0 <= k < |lines| ==> NoBreaks(lines[k])
  }

  /** The finished lines and the carried text of one split are free of terminators. */
  lemma SplitPieces(s: string)
    ensures Clean(AllButLast(Split(s))) && NoBreaks(Last(Split(s)))
  {
    SplitNoBreaks(s);
  }

  /** One `transform` call keeps the enqueued lines and the carried line equal to `Feed`. */
  lemma TransformStep(chunks: seq<string>, emitted: seq<string>, container: string, chunk: string)
    requires emitted + [container] == Feed(chunks)
    ensures var all := Split(container + chunk);
      && AllButLast(all) + [Last(all)] == all
      && (emitted + AllButLast(all)) + [Last(all)] == Feed(chunks + [chunk])
  {
    var all := Split(container + chunk);
    FeedExtends(chunks, emitted, container, chunk);
    SplitOffLast(all);
    assert (emitted + AllButLast(all)) + [Last(all)] == emitted + (AllButLast(all) + [Last(all)]);
  }

  /** The `LineBreakTransformer` stage. */
  class LineBreakTransformer {
    /** The unfinished line carried over to the next chunk. */
    var container: string
    /** Only ever `false`: nothing raises it. */
    var previousChunkEndedWithCR: bool
    /** The chunks transformed so far. */
    ghost var chunks: seq<string>
    /** The lines enqueued so far. */
    ghost var emitted: seq<string>

    ghost predicate Valid()
      reads this
    {
      && !previousChunkEndedWithCR
      && emitted + [container] == Feed(chunks)
    }

    constructor ()
      ensures Valid()
      ensures container == "" && chunks == [] && emitted == []
    {
      container := "";
      previousChunkEndedWithCR := false;
      chunks := [];
      emitted := [];
    }

    /** Appends the chunk to the carried text and enqueues every finished line. */
    method Transform(chunk: string) returns (lines: seq<string>)
      requires Valid()
      modifies this
      ensures Valid()
      ensures chunks == old(chunks) + [chunk] && emitted == old(emitted) + lines
      ensures lines + [container] == Split(old(container) + chunk)
      ensures Clean(lines) && NoBreaks(container)
    {
      var c := SkipSplitLF(previousChunkEndedWithCR, chunk);
      var all := Split(container + c);
      TransformStep(chunks, emitted, container, chunk);
      SplitPieces(container + chunk);
      lines := AllButLast(all);
      emitted := emitted + lines;
      container := Last(all);
      chunks := chunks + [chunk];
    }

    /** Enqueues the carried text as a final line, even when it is empty. */
    method Flush() returns (lines: seq<string>)
      requires Valid()
      ensures lines == [container]
      ensures emitted + lines == Feed(chunks)
    {
      lines := [container];
    }
  }
}
