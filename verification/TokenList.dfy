/** The hand-written singly linked list of tokens, on real nodes. */
module TokenLists {
  import opened Common
  import opened Streams

  class TokenNode {
    var token: string
    var next: TokenNode?
    ghost const owner: TokenList  // the list that allocated the node
    ghost var alive: bool         // allocated and not yet deleted

    constructor (t: string, ghost list: TokenList)
      ensures token == CString(t) && next == null && alive && owner == list
    {
      owner := list;
      token := CString(t);
      next := null;
      alive := true;
    }

    /** `delete`: a node can be given up only once. */
    method Delete()
      requires alive
      modifies this`alive
      ensures !alive
    {
      alive := false;
    }
  }

  class TokenList {
    var head: TokenNode?
    var tail: TokenNode?
    var size: int
    var outputPtr: TokenNode?
    var finished: bool

    ghost var alive: bool
    ghost var nodes: seq<TokenNode>  // the chain from head to tail
    ghost var cells: set<TokenNode>  // every node the list may touch
    ghost var view: Stream           // the abstract value

    /** The nodes from `head` are alive, linked in order and end at
        `tail`; `size` counts them; the cursor is null or one of them. */
    ghost predicate Valid()
      reads this, cells
    {
      && alive
      && (forall n :: n in cells ==> n.owner == this)
      && (forall i :: 0 <= i < |nodes| ==> nodes[i] in cells)
      && size == |nodes| == |view.tokens|
      && head == (if nodes == [] then null else nodes[0])
      && tail == (if nodes == [] then null else nodes[|nodes| - 1])
      && (forall i :: 0 <= i < |nodes| ==>
            nodes[i].alive && nodes[i].token == view.tokens[i])
      && Linked()
      && view.Wf()
      && outputPtr == (if view.cursor.None? then null else nodes[view.cursor.value])
      && finished == view.finished
    }

    /** Each node points to its successor and the last one to null. */
    ghost predicate Linked()
      reads this, nodes
    {
      && (forall i, j :: 0 <= i < j < |nodes| && j == i + 1 ==> nodes[i].next == nodes[j])
      && (nodes != [] ==> nodes[|nodes| - 1].next == null)
    }

    /** A chain that ends in null never visits a node twice. */
    lemma {:induction false} Acyclic(i: nat, j: nat)
      requires Linked() && i < j < |nodes|
      ensures nodes[i] != nodes[j]
      decreases |nodes| - j
    {
      assert nodes[i].next == nodes[i + 1];
      if j + 1 < |nodes| {
        assert nodes[j].next == nodes[j + 1];
        Acyclic(i + 1, j + 1);
      }
    }

    /** Nothing outside the list and its nodes matters to it. */
    twostate lemma Untouched()
      requires old(Valid()) && unchanged(this)
      requires forall n :: n in old(cells) ==> unchanged(n)
      ensures Valid()
    {
      forall i | 0 <= i < |nodes| ensures unchanged(nodes[i]) {
        assert nodes[i] in cells;
      }
    }

    constructor ()
      ensures Valid() && cells == {}
      ensures view == EMPTY
    {
      head, tail, size, outputPtr, finished := null, null, 0, null, false;
      alive, nodes, cells, view := true, [], {}, EMPTY;
    }

    /** `nullptr` is ignored; anything else is copied into a new last node. */
    method AddToken(token: Option<string>)
      requires Valid()
      modifies this, cells
      ensures Valid() && fresh(cells - old(cells))
      ensures view == old(view).Append(token)
      ensures old(nodes) <= nodes && finished == old(finished) && outputPtr == old(outputPtr)
    {
      if token.Some? {
        var node := new TokenNode(token.value, this);
        Untouched();
        hide Valid;
        Link(node);
      }
    }

    /** Makes the node the last one. Earlier nodes are not touched, except for
        the link of the old tail. */
    method Link(node: TokenNode)
      requires Valid() && node !in cells
      requires node.owner == this && node.alive && node.next == null
      modifies this, cells
      ensures Valid() && cells == old(cells) + {node}
      ensures nodes == old(nodes) + [node]
      ensures view == old(view).(tokens := old(view).tokens + [node.token])
    {
      if head == null {
        LinkFirst(node);
      } else {
        LinkNext(node);
      }
    }

    /** The empty-list branch of `Link`. */
    method LinkFirst(node: TokenNode)
      requires Valid() && node !in cells && nodes == []
      requires node.owner == this && node.alive && node.next == null
      modifies this
      ensures Valid() && cells == old(cells) + {node}
      ensures nodes == [node]
      ensures view == old(view).(tokens := old(view).tokens + [node.token])
    {
      head, tail := node, node;
      size := size + 1;
      nodes, cells, view := [node], cells + {node}, view.(tokens := view.tokens + [node.token]);
    }

    /** The other branch of `Link`. */
    method LinkNext(node: TokenNode)
      requires Valid() && node !in cells && nodes != []
      requires node.owner == this && node.alive && node.next == null
      modifies this, tail
      ensures Valid() && cells == old(cells) + {node}
      ensures nodes == old(nodes) + [node]
      ensures view == old(view).(tokens := old(view).tokens + [node.token])
    {
      forall i | 0 <= i < |nodes| - 1 ensures nodes[i] != tail {
        Acyclic(i, |nodes| - 1);
      }
      tail.next := node;
      tail := node;
      size := size + 1;
      nodes, cells, view := nodes + [node], cells + {node}, view.(tokens := view.tokens + [node.token]);
      assert Linked();
      hide Linked;
    }

    method MarkFinished()
      requires Valid()
      modifies this`finished, this`view
      ensures Valid()
      ensures view == old(view).Finish()
    {
      finished := true;
      view := view.Finish();
    }

    method HasMoreTokens() returns (r: bool)
      requires Valid()
      ensures r == view.HasMore()
    {
      r := outputPtr != null || (!finished && size > 0);
    }

    method IsCompletelyFinished() returns (r: bool)
      requires Valid()
      ensures r == view.CompletelyFinished()
    {
      r := finished && outputPtr == null;
    }

    method ResetOutput()
      requires Valid()
      modifies this`outputPtr, this`view
      ensures Valid()
      ensures view == old(view).Reset()
    {
      outputPtr := head;
      view := view.Reset();
    }

    method GetNextToken() returns (r: Option<string>)
      requires Valid()
      modifies this`outputPtr, this`view
      ensures Valid()
      ensures r == old(view).Current()
      ensures view == old(view).Advance()
    {
      if outputPtr == null {
        return None;
      }
      r := Some(outputPtr.token);
      outputPtr := outputPtr.next;
      view := view.Advance();
    }

    /** The freeing loop: terminates with every node deleted exactly once
        (`Delete` cannot be called twice on a node). */
    method DeleteNodes()
      requires Valid()
      modifies cells
      ensures forall n :: n in nodes ==> !n.alive
    {
      var cur := head;
      ghost var k := 0;
      while cur != null
        invariant 0 <= k <= |nodes|
        invariant cur == (if k < |nodes| then nodes[k] else null)
        invariant Linked()
        invariant forall i :: 0 <= i < k ==> !nodes[i].alive
        invariant forall i :: k <= i < |nodes| ==> nodes[i].alive
        decreases |nodes| - k
      {
        var next := cur.next;
        forall j | k < j < |nodes| ensures nodes[j] != cur {
          Acyclic(k, j);
        }
        cur.Delete();
        cur := next;
        k := k + 1;
      }
    }

    /** Leaves the list empty, unfinished and without a cursor, and every old
        node deleted. */
    method Clear()
      requires Valid()
      modifies this, cells
      ensures Valid()
      ensures nodes == [] && cells == {} && view == EMPTY
      ensures forall n :: n in old(nodes) ==> !n.alive
    {
      DeleteNodes();
      head, tail, size, outputPtr, finished := null, null, 0, null, false;
      nodes, cells, view := [], {}, EMPTY;
    }

    /** `delete list`: the destructor clears, then the list itself is gone. */
    method Delete()
      requires Valid()
      modifies this, cells
      ensures !alive
      ensures forall n :: n in old(nodes) ==> !n.alive
    {
      Clear();
      alive := false;
    }
  }
}
