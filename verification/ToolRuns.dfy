/** Tool calls and results kept together: `groupToolRuns` (webview/src/transcript.ts). */
module ToolRuns {
  import opened Sequences

  /** A transcript item: an event about a tool, with its turn, or anything else. */
  datatype Item = Tool(id: string, turn: string) | Other(id: string)

  datatype Block = Single(item: Item) | Tools(id: string, events: seq<Item>)

  /** The block before takes the event, or a new one starts. */
  function Add(blocks: seq<Block>, item: Item): seq<Block> {
    if item.Other? then blocks + [Single(item)]
    else if blocks != [] then
      var last := blocks[|blocks| - 1];
      if last.Tools? && last.events != [] && last.events[0].Tool? && last.events[0].turn == item.turn
      then blocks[..|blocks| - 1] + [last.(events := last.events + [item])]
      else blocks + [Tools(item.id, [item])]
    else [Tools(item.id, [item])]
  }

  /** The blocks of the first `n` items. */
  function Grouped(items: seq<Item>, n: nat): seq<Block>
    requires n <= |items|
  {
    if n == 0 then [] else Add(Grouped(items, n - 1), items[n - 1])
  }

  /** `groupToolRuns`. */
  method GroupToolRuns(items: seq<Item>) returns (blocks: seq<Block>)
    ensures blocks == Grouped(items, |items|)
  {
    blocks := [];
    for i := 0 to |items|
      invariant blocks == Grouped(items, i)
    {
      var item := items[i];
      if item.Tool? {
        if blocks != [] {
          var previous := blocks[|blocks| - 1];
          if previous.Tools? && previous.events != [] && previous.events[0].Tool? && previous.events[0].turn == item.turn {
            blocks := blocks[..|blocks| - 1] + [previous.(events := previous.events + [item])];
            continue;
          }
        }
        blocks := blocks + [Tools(item.id, [item])];
      } else {
        blocks := blocks + [Single(item)];
      }
    }
  }

  function ItemsOf(b: Block): seq<Item> {
    match b case Single(item) => [item] case Tools(_, events) => events
  }

  /** The items of the first `n` blocks. */
  function Flatten(blocks: seq<Block>, n: nat): seq<Item>
    requires n <= |blocks|
  {
    if n == 0 then [] else Flatten(blocks, n - 1) + ItemsOf(blocks[n - 1])
  }

  /** A tool block has the id of its first event and holds events of one turn. */
  predicate OneTurn(b: Block) {
    match b
    case Single(item) => item.Other?
    case Tools(id, events) =>
      events != [] && events[0].id == id && forall e :: e in events ==> e.Tool? && events[0].Tool? && e.turn == events[0].turn
  }

  /** Two tool blocks side by side are of different turns. */
  predicate Apart(a: Block, b: Block) {
    a.Tools? && b.Tools? && a.events != [] && b.events != [] && a.events[0].Tool? && b.events[0].Tool? ==>
      a.events[0].turn != b.events[0].turn
  }

  ghost predicate WellGrouped(blocks: seq<Block>) {
    && (forall b :: b in blocks ==> OneTurn(b))
    && (forall i :: 0 < i < |blocks| ==> Apart(blocks[i - 1], blocks[i]))
  }

  lemma AddKeeps(blocks: seq<Block>, item: Item)
    requires WellGrouped(blocks)
    ensures WellGrouped(Add(blocks, item))
  {
    if blocks != [] {
      assert OneTurn(blocks[|blocks| - 1]);
    }
  }

  lemma {:induction false} SameFlattening(a: seq<Block>, b: seq<Block>, n: nat)
    requires n <= |a| && n <= |b|
    requires forall i :: 0 <= i < n ==> a[i] == b[i]
    ensures Flatten(a, n) == Flatten(b, n)
  {
    if n > 0 {
      SameFlattening(a, b, n - 1);
    }
  }

  lemma AddFlattens(blocks: seq<Block>, item: Item)
    ensures var now := Add(blocks, item); Flatten(now, |now|) == Flatten(blocks, |blocks|) + [item]
  {
    var now := Add(blocks, item);
    var n := |now| - 1;
    SameFlattening(now, blocks, n);
    if |now| == |blocks| {
      LastGrows(Flatten(blocks, n), blocks[n], now[n], item);
    }
  }

  lemma LastGrows(front: seq<Item>, last: Block, grown: Block, item: Item)
    requires last.Tools? && grown == last.(events := last.events + [item])
    ensures front + ItemsOf(grown) == front + ItemsOf(last) + [item]
  {
    Regroup(front, last.events, [item]);
  }

  /** Grouping keeps every item in its place. */
  lemma {:induction false} GroupingKeepsOrder(items: seq<Item>, n: nat)
    requires n <= |items|
    ensures Flatten(Grouped(items, n), |Grouped(items, n)|) == items[..n]
  {
    if n > 0 {
      GroupingKeepsOrder(items, n - 1);
      AddFlattens(Grouped(items, n - 1), items[n - 1]);
      TakeOneMore(items, n);
    }
  }

  lemma TakeOneMore(items: seq<Item>, n: nat)
    requires 0 < n <= |items|
    ensures items[..n] == items[..n - 1] + [items[n - 1]]
  {}

  /** It groups exactly the neighbouring tool events of one turn. */
  lemma {:induction false} GroupsAreTurns(items: seq<Item>, n: nat)
    requires n <= |items|
    ensures WellGrouped(Grouped(items, n))
  {
    if n > 0 {
      GroupsAreTurns(items, n - 1);
      AddKeeps(Grouped(items, n - 1), items[n - 1]);
    }
  }
}
