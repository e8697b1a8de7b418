/** The members of AsyncHandle in src/AsyncHandle.cpp, and what libuv and RunLoop do to the handles they own. */
module HandleOwnership {
  import opened HandleRuns

  class Pool {
    var wrappers: seq<Wrapper>
    var blocks: seq<Block>

    constructor ()
      ensures Valid() && Now() == State([], [])
    {
      wrappers, blocks := [], [];
    }

    function Now(): State
      reads this
    {
      State(wrappers, blocks)
    }

    ghost predicate Valid()
      reads this
    {
      Sound(Now())
    }

    // The constructor, with a handle that has just been initialized.
    method Construct() returns (w: nat)
      requires Valid()
      modifies this
      ensures Valid() && w == |old(wrappers)| && Owns(Now(), w, |old(blocks)|) && Now() == Constructed(old(Now()))
    {
      ConstructedKeeps(Now());
      w := |wrappers|;
      wrappers, blocks := wrappers + [Wrapper(true, |blocks|, false)], blocks + [Block(w, Open, false, false)];
    }

    // IsClosing.
    method IsClosing(w: nat) returns (r: bool)
      requires Valid() && Holds(Now(), w)
      ensures r <==> !HasBlock(Now(), w) || blocks[wrappers[w].handle].phase != Open
    {
      assert WrapperOk(Now(), w);
      r := wrappers[w].handle == -1 || wrappers[w].closed || blocks[wrappers[w].handle].phase != Open;
    }

    // Close.
    method Close(w: nat) returns (started: bool)
      requires Valid() && Holds(Now(), w)
      modifies this`blocks
      ensures Valid() && Now() == ClosedBy(old(Now()), w)
      ensures started <==> exists b: nat :: Owns(old(Now()), w, b) && IsOpen(old(Now()), b)
    {
      assert WrapperOk(Now(), w);
      var closing := IsClosing(w);
      if closing {
        return false;
      }
      assert Owns(Now(), w, wrappers[w].handle) && IsOpen(Now(), wrappers[w].handle);
      StartClose(wrappers[w].handle);
      return true;
    }

    // uv_close, called by Close and for all open handles by the destructor of RunLoop.
    method StartClose(b: nat)
      requires Valid() && IsOpen(Now(), b)
      modifies this`blocks
      ensures Valid() && Now() == StartedClose(old(Now()), b)
    {
      StartedCloseKeeps(Now(), b);
      blocks := blocks[b := blocks[b].(phase := Closing)];
    }

    // The move constructor.
    method MoveConstruct(org: nat) returns (w: nat)
      requires Valid() && Holds(Now(), org)
      modifies this
      ensures Valid() && Now() == Moved(old(Now()), org) && w == |old(wrappers)|
      ensures wrappers[w] == old(wrappers[org]) && wrappers[org] == EMPTY
    {
      MovedKeeps(Now(), org);
      assert WrapperOk(Now(), org);
      w := |wrappers|;
      var b := wrappers[org].handle;
      wrappers := wrappers + [Wrapper(true, b, wrappers[org].closed)];
      wrappers := wrappers[org := Wrapper(true, -1, true)];
      if b != -1 {
        blocks := blocks[b := blocks[b].(data := w)];
      }
      assert wrappers == old(wrappers)[org := EMPTY] + [old(wrappers)[org]];
    }

    // m_pHandle.release() with the data pointer cleared.
    method Release(w: nat)
      requires Valid() && HasBlock(Now(), w) && blocks[wrappers[w].handle].phase != Open
      modifies this
      ensures Valid() && Now() == Released(old(Now()), w)
    {
      ReleasedKeeps(Now(), w);
      var b := wrappers[w].handle;
      blocks := blocks[b := blocks[b].(data := -1, lost := blocks[b].phase == Closed)];
      wrappers := wrappers[w := Wrapper(true, -1, true)];
    }

    // Gives a block back to the object pool. Only memory that libuv has done with, and only once.
    method Free(b: nat)
      requires b < |blocks| && !blocks[b].freed && blocks[b].phase == Closed
      modifies this`blocks
      ensures Now() == Freed(old(Now()), b)
    {
      blocks := blocks[b := blocks[b].(freed := true, lost := false)];
    }

    // The destructor. A block that libuv has not done with is left to libuv.
    method Destroy(w: nat)
      requires Valid() && Holds(Now(), w)
      modifies this
      ensures Valid() && Now() == Destroyed(old(Now()), w)
    {
      DestroyedKeeps(Now(), w);
      assert WrapperOk(Now(), w);
      if !wrappers[w].closed {
        ClosedByKeeps(Now(), w);
        var _ := Close(w);
        Release(w);
      }
      if wrappers[w].handle != -1 {
        FreedKeeps(Now(), w);
        Free(wrappers[w].handle);
      }
      wrappers := wrappers[w := Wrapper(false, -1, true)];
    }

    // The move assignment, onto itself as well.
    method MoveAssign(w: nat, org: nat)
      requires Valid() && Holds(Now(), w) && Holds(Now(), org)
      modifies this
      ensures Valid() && Now() == Assigned(old(Now()), w, org)
      ensures wrappers[org] == EMPTY && (w != org ==> wrappers[w] == old(wrappers[org]))
      ensures forall b :: 0 <= b < |blocks| ==> blocks[b].freed == old(blocks)[b].freed
      ensures forall b :: 0 <= b < |blocks| ==>
                (blocks[b].lost <==> old(blocks)[b].lost || (Owns(old(Now()), w, b) && old(wrappers)[w].closed))
    {
      AssignedKeeps(Now(), w, org);
      LosesExactly(Now(), Assign(w, org));
      FreesClosed(Now(), Assign(w, org));
      LetGo(w);
      TakeOver(w, org);
    }

    // The first half: the block that is overwritten is left to libuv.
    method LetGo(w: nat)
      requires Valid() && Holds(Now(), w)
      modifies this
      ensures Valid() && Now() == HandleRuns.LetGo(old(Now()), w) && wrappers[w] == EMPTY
    {
      LetGoKeeps(Now(), w);
      assert WrapperOk(Now(), w);
      if wrappers[w].handle != -1 {
        ClosedByKeeps(Now(), w);
        var _ := Close(w);
        Release(w);
      }
    }

    // The second half.
    method TakeOver(w: nat, org: nat)
      requires Valid() && Holds(Now(), w) && Holds(Now(), org) && wrappers[w] == EMPTY
      modifies this
      ensures Valid() && Now() == TakenOver(old(Now()), w, org)
    {
      TakenOverKeeps(Now(), w, org);
      assert WrapperOk(Now(), org);
      var b := wrappers[org].handle;
      wrappers := wrappers[w := Wrapper(true, b, wrappers[org].closed)];
      wrappers := wrappers[org := Wrapper(true, -1, true)];
      if wrappers[w].handle != -1 {
        blocks := blocks[b := blocks[b].(data := w)];
      }
    }

    // uv__finish_close and OnUVClose. OnClose goes to the live wrapper that owns the block, or the block is freed.
    method FinishClose(b: nat) returns (to: int)
      requires Valid() && HandleRuns.IsClosing(Now(), b)
      modifies this
      ensures Valid() && Now() == Finished(old(Now()), b)
      ensures forall w: nat :: to == w <==> Owns(old(Now()), w, b)
      ensures NoticeOf(old(Now()), Finish(b)) == if to >= 0 then [OnClose(b, to)] else [HandleRuns.Free(b)]
    {
      FinishedKeeps(Now(), b);
      FinishTells(Now(), b);
      assert BlockOk(Now(), b);
      blocks := blocks[b := blocks[b].(phase := Closed)];
      to := blocks[b].data;
      if to == -1 {
        Free(b);
      } else {
        wrappers := wrappers[to := wrappers[to].(closed := true)];
      }
    }

    // A program that uses wrappers, and its loop, in any order.
    method Perform(ops: seq<Op>) returns (ghost log: seq<Notice>)
      requires Now() == State([], [])
      modifies this
      ensures Valid() && Course(Now(), log) == Run(ops) && LogOk(Course(Now(), log))
    {
      log := [];
      for k := 0 to |ops|
        invariant Valid() && Course(Now(), log) == Run(ops[..k])
      {
        assert ops[..k + 1][..k] == ops[..k];
        if Possible(Now(), ops[k]) {
          log := log + NoticeOf(Now(), ops[k]);
          match ops[k] {
            case Construct => var _ := Construct();
            case Move(w) => var _ := MoveConstruct(w);
            case Assign(w, org) => MoveAssign(w, org);
            case Close(w) => var _ := Close(w);
            case Destroy(w) => Destroy(w);
            case ForceClose(b) => StartClose(b);
            case Finish(b) => var _ := FinishClose(b);
          }
        }
      }
      assert ops[..|ops|] == ops;
      RunLogged(ops);
    }
  }
}
