/**
 * Blank-line grouping of the Server-Sent-Events decoder: the
 * `EventLineGroupingTransformer` stage, which collects lines into a group
 * and emits the group at every empty line.
 */
module SseGrouping {
  import opened SseLines

  /** What the stage has emitted so far and the group it is still collecting. */
  datatype Grouping = Grouping(emitted: seq<seq<string>>, current: seq<string>)

  /** One line: an empty line emits the current group (even `[]`) and resets it. */
  function GroupStep(g: Grouping, line: string): (r: Grouping)
    ensures g.emitted <= r.emitted && |r.emitted| <= |g.emitted| + 1
  {
    if line == "" then Grouping(g.emitted + [g.current], [])
    else Grouping(g.emitted, g.current + [line])
  }

  /** The state after every line of the stream, one `transform` call per line. */
  function GroupLines(lines: seq<string>): (r: Grouping)
    ensures |r.emitted| <= |lines|
  {
    if lines == [] then Grouping([], [])
    else GroupStep(GroupLines(AllButLast(lines)), Last(lines))
  }

  /** Everything the stage enqueues: `flush` adds nothing, so `current` is dropped. */
  function Groups(lines: seq<string>): seq<seq<string>> {
    GroupLines(lines).emitted
  }

  /** The number of empty lines. */
  function CountEmpty(lines: seq<string>): nat {
    if lines == [] then 0
    else CountEmpty(AllButLast(lines)) + (if Last(lines) == "" then 1 else 0)
  }

  /** The lines with the empty ones removed, in order. */
  function NonEmpty(lines: seq<string>): (r: seq<string>)
    ensures forall k :: 0 <= k < |r| ==> r[k] != ""
  {
    if lines == [] then []
    else NonEmpty(AllButLast(lines)) + (if Last(lines) == "" then [] else [Last(lines)])
  }

  /** All groups written one after another. */
  function Flatten(groups: seq<seq<string>>): seq<string> {
    if groups == [] then [] else Flatten(AllButLast(groups)) + Last(groups)
  }

  predicate NoEmptyLine(group: seq<string>) {
    forall k :: 0 <= k < |group| ==> group[k] != ""
  }

  lemma AppendLast<T>(s: seq<T>, x: T)
    ensures AllButLast(s + [x]) == s && Last(s + [x]) == x
  {
  }

  /** One group is emitted per empty line. */
  lemma {:induction false} GroupCount(lines: seq<string>)
    ensures |Groups(lines)| == CountEmpty(lines)
  {
    if lines != [] {
      GroupCount(AllButLast(lines));
    }
  }

  /** The groups and the pending group hold exactly the non-empty lines, in arrival order. */
  lemma {:induction false} GroupsKeepLines(lines: seq<string>)
    ensures Flatten(GroupLines(lines).emitted) + GroupLines(lines).current == NonEmpty(lines)
  {
    if lines != [] {
      var g := GroupLines(AllButLast(lines));
      GroupsKeepLines(AllButLast(lines));
      if Last(lines) == "" {
        AppendLast(g.emitted, g.current);
        assert Flatten(g.emitted + [g.current]) == Flatten(g.emitted) + g.current;
        assert NonEmpty(lines) == NonEmpty(AllButLast(lines)) + [];
      } else {
        assert Flatten(g.emitted) + (g.current + [Last(lines)])
            == (Flatten(g.emitted) + g.current) + [Last(lines)];
      }
    }
  }

  /** No emitted group, and not the pending one, holds an empty line. */
  lemma {:induction false} GroupsHaveNoEmptyLine(lines: seq<string>)
    ensures forall k :: 0 <= k < |GroupLines(lines).emitted| ==> NoEmptyLine(GroupLines(lines).emitted[k])
    ensures NoEmptyLine(GroupLines(lines).current)
  {
    if lines != [] {
      GroupsHaveNoEmptyLine(AllButLast(lines));
    }
  }

  /**
   * The pending group is what follows the last empty line (all lines when
   * there is none): it is the group the stage drops at the end.
   */
  lemma {:induction false} PendingIsTail(lines: seq<string>, k: nat)
    requires k < |lines| && lines[k] == ""
    requires forall j :: k < j < |lines| ==> lines[j] != ""
    ensures GroupLines(lines).current == lines[k + 1..]
  {
    if k < |lines| - 1 {
      var init := AllButLast(lines);
      PendingIsTail(init, k);
      assert lines[k + 1..] == init[k + 1..] + [Last(lines)];
    } else {
      assert lines[k + 1..] == [];
    }
  }

  /** Without any empty line, every line is pending and nothing is emitted. */
  lemma {:induction false} NoBlankNoGroup(lines: seq<string>)
    requires forall j :: 0 <= j < |lines| ==> lines[j] != ""
    ensures GroupLines(lines) == Grouping([], lines)
  {
    if lines != [] {
      var init := AllButLast(lines);
      assert forall j :: 0 <= j < |init| ==> init[j] == lines[j];
      NoBlankNoGroup(init);
      assert Last(lines) != "";
      assert init + [Last(lines)] == lines;
    }
  }

  /** Each line is one step: what one more line does to the whole stream. */
  lemma GroupLinesStep(lines: seq<string>, line: string)
    ensures GroupLines(lines + [line]) == GroupStep(GroupLines(lines), line)
  {
    AppendLast(lines, line);
  }

  /** The `EventLineGroupingTransformer` stage. */
  class EventLineGroupingTransformer {
    /** The lines of the group being collected. */
    var currentChunk: seq<string>
    /** The lines transformed so far. */
    ghost var lines: seq<string>
    /** The groups enqueued so far. */
    ghost var emitted: seq<seq<string>>

    ghost predicate Valid()
      reads this
    {
      GroupLines(lines) == Grouping(emitted, currentChunk)
    }

    /** `start`: begins with an empty group. */
    constructor Start()
      ensures Valid()
      ensures currentChunk == [] && lines == [] && emitted == []
    {
      currentChunk := [];
      lines := [];
      emitted := [];
    }

    /** An empty line emits the current group and resets it; any other line joins it. */
    method Transform(element: string) returns (groups: seq<seq<string>>)
      requires Valid()
      modifies this
      ensures Valid()
      ensures lines == old(lines) + [element] && emitted == old(emitted) + groups
      ensures element == "" ==> groups == [old(currentChunk)] && currentChunk == []
      ensures element != "" ==> groups == [] && currentChunk == old(currentChunk) + [element]
    {
      GroupLinesStep(lines, element);
      if element == "" {
        groups := [currentChunk];
        currentChunk := [];
      } else {
        groups := [];
        currentChunk := currentChunk + [element];
      }
      emitted := emitted + groups;
      lines := lines + [element];
    }

    /** Enqueues nothing: a group never closed by an empty line is dropped. */
    method Flush() returns (groups: seq<seq<string>>)
      requires Valid()
      ensures groups == []
      ensures emitted + groups == Groups(lines)
    {
      groups := [];
    }
  }
}
