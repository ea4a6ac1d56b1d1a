/** The task manager's token half: a map that owns one heap-allocated
    `TokenList` per request id. */
module TokenMaps {
  import opened Common
  import opened Streams
  import opened TokenLists

  class TokenMap {
    var lists: map<string, TokenList>
    ghost var Repr: set<object>
    ghost var view: map<string, Stream>  // the abstract value

    /** Every list is well formed and every id has a list of its own. */
    ghost predicate Valid()
      reads this, Repr
    {
      && this in Repr
      && view.Keys == lists.Keys
      && (forall id :: id in lists ==> Owns(lists[id]) && lists[id].view == view[id])
      && (forall id, id' :: id in lists && id' in lists && id != id' ==> lists[id] != lists[id'])
    }

    ghost predicate Owns(list: TokenList)
      reads this, Repr
    {
      list in Repr && list.cells <= Repr && (forall n :: n in list.cells ==> n.owner == list) && list.Valid()
    }

    /** Lists of different ids share no node. */
    lemma NoSharedNodes(id: string, id': string)
      requires Valid() && id in lists && id' in lists && id != id'
      ensures forall n :: n in lists[id].nodes ==> n !in lists[id'].nodes
    {
      assert Owns(lists[id]) && Owns(lists[id']);
    }

    /** Changing, adding or dropping one list leaves every other list alone. */
    twostate lemma OthersKept(id: string)
      requires old(Valid()) && old(Repr) <= Repr
      requires forall k, o :: k in old(lists) && k != id && o in old(lists[k].cells) + {old(lists[k])} ==> unchanged(o)
      ensures forall k :: k in old(lists) && k != id ==>
                Owns(old(lists[k])) && old(lists[k]).view == old(view)[k]
    {
      forall k | k in old(lists) && k != id
        ensures Owns(old(lists[k])) && old(lists[k]).view == old(view)[k]
      {
        hide TokenList.Valid;
        assert old(Owns(lists[k]));
        assert old(lists[k]) in old(lists[k].cells) + {old(lists[k])};
        assert forall o :: o in old(lists[k].cells) ==> o in old(lists[k].cells) + {old(lists[k])};
        old(lists[k]).Untouched();
      }
    }

    /** The table is valid again once the list at `id` is. */
    twostate lemma Reassembled(id: string, new list: TokenList)
      requires old(Valid()) && old(Repr) <= Repr
      requires forall k, o :: k in old(lists) && k != id && o in old(lists[k].cells) + {old(lists[k])} ==> unchanged(o)
      requires lists == old(lists)[id := list] && view == old(view)[id := list.view]
      requires forall k :: k in old(lists) && k != id ==> old(lists[k]) != list
      requires Owns(list)
      ensures Valid()
    {
      hide TokenList.Valid;
      OthersKept(id);
    }

    constructor ()
      ensures Valid() && fresh(Repr)
      ensures view == map[]
    {
      lists, Repr, view := map[], {this}, map[];
    }

    /** An unknown id gets a new list first, even when the token is null. */
    method AddToken(id: string, token: Option<string>)
      requires Valid()
      modifies Repr
      ensures Valid() && fresh(Repr - old(Repr))
      ensures view == Streams.AddToken(old(view), id, token)
    {
      if id !in lists {
        AddNewList(id, token);
      } else {
        AddToExisting(id, token);
      }
    }

    /** The known-id branch of `AddToken`. */
    method AddToExisting(id: string, token: Option<string>)
      requires Valid() && id in lists
      modifies Repr
      ensures Valid() && fresh(Repr - old(Repr))
      ensures view == Streams.AddToken(old(view), id, token)
    {
      hide TokenList.Valid;
      var list := lists[id];
      assert Owns(list);
      list.AddToken(token);
      label added:
      Repr := Repr + list.cells;
      view := view[id := list.view];
      list.Untouched@added();
      Reassembled(id, list);
    }

    /** The unknown-id branch of `AddToken`. */
    method AddNewList(id: string, token: Option<string>)
      requires Valid() && id !in lists
      modifies this
      ensures Valid() && fresh(Repr - old(Repr))
      ensures view == Streams.AddToken(old(view), id, token)
    {
      hide TokenList.Valid;
      var list := new TokenList();
      list.AddToken(token);
      label added:
      Repr := Repr + {list} + list.cells;
      lists, view := lists[id := list], view[id := list.view];
      list.Untouched@added();
      Reassembled(id, list);
    }

    method GetTokenList(id: string) returns (list: TokenList?)
      requires Valid()
      ensures list == if id in lists then lists[id] else null
      ensures list != null <==> id in view
    {
      list := if id in lists then lists[id] else null;
    }

    /** Deletes the list and all its nodes, then forgets the id. */
    method ClearTokenList(id: string)
      requires Valid()
      modifies Repr
      ensures Valid() && fresh(Repr - old(Repr))
      ensures view == ClearList(old(view), id)
      ensures id in old(lists) ==> !old(lists[id]).alive && forall n :: n in old(lists[id].nodes) ==> !n.alive
    {
      hide TokenList.Valid;
      if id in lists {
        var list := lists[id];
        assert Owns(list);
        list.Delete();
        lists, view := lists - {id}, view - {id};
        OthersKept(id);
      }
    }

    /** Does nothing for an unknown id. */
    method MarkTokenStreamFinished(id: string)
      requires Valid()
      modifies Repr
      ensures Valid() && fresh(Repr - old(Repr))
      ensures view == MarkFinished(old(view), id)
    {
      hide TokenList.Valid;
      if id in lists {
        var list := lists[id];
        assert Owns(list);
        list.MarkFinished();
        label marked:
        view := view[id := list.view];
        list.Untouched@marked();
        Reassembled(id, list);
      }
    }

    // What callers do with a list they looked up

    /** `resetOutput` on the list of an id. */
    method ResetOutput(id: string)
      requires Valid() && id in view
      modifies Repr
      ensures Valid() && Repr == old(Repr)
      ensures view == Streams.ResetOutput(old(view), id)
    {
      hide TokenList.Valid;
      var list := lists[id];
      assert Owns(list);
      list.ResetOutput();
      view := view[id := list.view];
      Reassembled(id, list);
    }

    /** `getNextToken` on the list of an id, if it says it has more tokens. */
    method NextIfAny(id: string) returns (token: Option<string>)
      requires Valid() && id in view
      modifies Repr
      ensures Valid() && Repr == old(Repr)
      ensures var s := old(view)[id];
              && s.Wf()
              && token == (if s.HasMore() then s.Current() else None)
              && view == old(view)[id := if s.HasMore() then s.Advance() else s]
    {
      hide TokenList.Valid;
      ViewWf();
      var list := lists[id];
      assert Owns(list);
      token := None;
      var more := list.HasMoreTokens();
      if more {
        token := list.GetNextToken();
        view := view[id := list.view];
        Reassembled(id, list);
      }
    }

    method IsCompletelyFinished(id: string) returns (r: bool)
      requires Valid() && id in view
      ensures r == view[id].CompletelyFinished()
    {
      assert Owns(lists[id]);
      r := lists[id].IsCompletelyFinished();
    }

    lemma ViewWf()
      requires Valid()
      ensures AllWf(view)
    {
      assert forall id :: id in lists ==> Owns(lists[id]);
    }
  }
}
