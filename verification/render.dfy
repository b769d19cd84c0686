/** The host wiki's renderer as the plugin sees it: a sink for an ordered
    stream of calls. Each call the plugin makes becomes one `Event`, and the
    renderer object keeps the events in the order they were made. */
module DokuRenderer {
  import opened Php

  datatype Event =
    | TableOpen(maxCols: nat) | TableClose
    | TheadOpen | TheadClose
    | TbodyOpen | TbodyClose
    | RowOpen | RowClose
    | HeaderOpen | HeaderClose
    | CellOpen | CellClose
    | ParagraphOpen | ParagraphClose
    | Cdata(text: string)
      /** `externallink($url, $name)`; a name of None is PHP's null. */
    | ExternalLink(url: string, name: Option<string>)

  class Renderer {
    /** Every call received so far, oldest first. */
    var events: seq<Event>

    constructor ()
      ensures events == []
    {
      events := [];
    }

    /** One renderer call (`table_open`, `cdata`, `externallink`, ...). */
    method Emit(e: Event)
      modifies this
      ensures events == old(events) + [e]
    {
      events := events + [e];
    }
  }

  /** The kinds of block an event can open or close. */
  datatype Block = Table | Thead | Tbody | Row | Header | Cell | Paragraph

  function Opens(e: Event): (b: Option<Block>)
    ensures b.Some? ==> Closes(e).None?
  {
    match e
    case TableOpen(_) => Some(Table)
    case TheadOpen => Some(Thead)
    case TbodyOpen => Some(Tbody)
    case RowOpen => Some(Row)
    case HeaderOpen => Some(Header)
    case CellOpen => Some(Cell)
    case ParagraphOpen => Some(Paragraph)
    case _ => None
  }

  function Closes(e: Event): Option<Block>
  {
    match e
    case TableClose => Some(Table)
    case TheadClose => Some(Thead)
    case TbodyClose => Some(Tbody)
    case RowClose => Some(Row)
    case HeaderClose => Some(Header)
    case CellClose => Some(Cell)
    case ParagraphClose => Some(Paragraph)
    case _ => None
  }

  /** Replays `events` against the stack `open` of blocks still open
      (innermost last): an opening event pushes its block, a closing event
      must close the innermost open block, anything else leaves the stack
      alone. None when some close does not match. */
  function Nesting(events: seq<Event>, open: seq<Block>): Option<seq<Block>>
    decreases |events|
  {
    if events == [] then Some(open)
    else
      var e := events[0];
      if Opens(e).Some? then Nesting(events[1..], open + [Opens(e).value])
      else if Closes(e).Some? then
        if open != [] && open[|open| - 1] == Closes(e).value
        then Nesting(events[1..], open[..|open| - 1])
        else None
      else Nesting(events[1..], open)
  }

  /** Every opened block is closed, in the right order, and nothing is
      closed that was not opened. */
  predicate Balanced(events: seq<Event>)
  {
    Nesting(events, []) == Some([])
  }

  /** Replaying a concatenation is replaying the first part, then the second
      from wherever the first left the stack. */
  lemma {:induction false} NestingAppend(a: seq<Event>, b: seq<Event>, open: seq<Block>)
    ensures Nesting(a + b, open) ==
      match Nesting(a, open)
      case None => None
      case Some(o) => Nesting(b, o)
    decreases |a|
  {
    if a != [] {
      assert (a + b)[0] == a[0];
      assert (a + b)[1..] == a[1..] + b;
      var e := a[0];
      if Opens(e).Some? {
        NestingAppend(a[1..], b, open + [Opens(e).value]);
      } else if Closes(e).Some? {
        if open != [] && open[|open| - 1] == Closes(e).value {
          NestingAppend(a[1..], b, open[..|open| - 1]);
        }
      } else {
        NestingAppend(a[1..], b, open);
      }
    } else {
      assert a + b == b;
    }
  }

  /** A piece that opens block `b`, leaves the stack as it found it in
      between, and closes `b` again, is itself neutral. */
  lemma Wrapped(open: Event, inner: seq<Event>, close: Event, b: Block, stack: seq<Block>)
    requires Opens(open) == Some(b) && Closes(close) == Some(b)
    requires Nesting(inner, stack + [b]) == Some(stack + [b])
    ensures Nesting([open] + inner + [close], stack) == Some(stack)
  {
    NestingAppend([open] + inner, [close], stack);
    NestingAppend([open], inner, stack);
    assert (stack + [b])[..|stack|] == stack;
    assert [close][1..] == [];
  }

  /** Two pieces that each leave the stack as they found it, one after the
      other, leave it as they found it too. */
  lemma NeutralAppend(a: seq<Event>, b: seq<Event>, stack: seq<Block>)
    requires Nesting(a, stack) == Some(stack) && Nesting(b, stack) == Some(stack)
    ensures Nesting(a + b, stack) == Some(stack)
  {
    NestingAppend(a, b, stack);
  }

  /** An event that neither opens nor closes a block. */
  predicate Leaf(e: Event)
  {
    Opens(e).None? && Closes(e).None?
  }

  /** A leaf wrapped in block `b`. */
  lemma WrappedLeaf(open: Event, leaf: Event, close: Event, b: Block, stack: seq<Block>)
    requires Opens(open) == Some(b) && Closes(close) == Some(b) && Leaf(leaf)
    ensures Nesting([open, leaf, close], stack) == Some(stack)
  {
    assert Nesting([leaf], stack + [b]) == Nesting([], stack + [b]);
    Wrapped(open, [leaf], close, b, stack);
    assert [open] + [leaf] + [close] == [open, leaf, close];
  }
}
