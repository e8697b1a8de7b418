/** What each operation on wrappers does to the handles and to their owners, case by case. */
module OwnerLaws {
  import opened HandleRuns

  /** Close, the move assignment and the destructor start to close the handle of their wrapper; RunLoop closes any. */
  ghost predicate Closes(s: State, op: Op, b: nat) {
    || op == ForceClose(b)
    || ((op.Close? || op.Assign? || op.Destroy?) && Owns(s, op.w, b))
  }

  /** A handle goes from open to closing and from there to closed, and nothing else ever changes its phase. */
  lemma PhaseLaw(s: State, op: Op, b: nat)
    requires Sound(s) && Possible(s, op) && b < |s.blocks|
    ensures |After(s, op).blocks| >= |s.blocks|
    ensures After(s, op).blocks[b].phase
            == if s.blocks[b].phase == Open && Closes(s, op, b) then Closing
               else if s.blocks[b].phase == Closing && op == Finish(b) then Closed
               else s.blocks[b].phase
  {
    if op.Close? || op.Assign? || op.Destroy? {
      assert WrapperOk(s, op.w);
    }
    assert BlockOk(s, b);
    match op {
      case Assign(w, org) => LetGoPhase(s, w, b);
      case _ =>
    }
  }

  lemma LetGoPhase(s: State, w: nat, b: nat)
    requires Sound(s) && Holds(s, w) && b < |s.blocks|
    ensures |LetGo(s, w).blocks| == |s.blocks|
    ensures LetGo(s, w).blocks[b].phase == if s.blocks[b].phase == Open && Owns(s, w, b) then Closing else s.blocks[b].phase
  {
    assert WrapperOk(s, w);
  }

  /** Who owns what afterwards. */
  ghost predicate OwnsAfter(s: State, op: Op, v: nat, b: nat) {
    match op
    case Construct => Owns(s, v, b) || (v == |s.wrappers| && b == |s.blocks|)
    case Move(w) => if v == |s.wrappers| then Owns(s, w, b) else v != w && Owns(s, v, b)
    case Assign(w, org) => if v == w then w != org && Owns(s, org, b) else v != org && Owns(s, v, b)
    case Destroy(w) => v != w && Owns(s, v, b)
    case _ => Owns(s, v, b)
  }

  /** A handle stays with its wrapper except for a move, which passes it on, and the end of the wrapper. */
  lemma OwnerLaw(s: State, op: Op, v: nat, b: nat)
    requires Sound(s) && Possible(s, op)
    ensures Owns(After(s, op), v, b) <==> OwnsAfter(s, op, v, b)
  {
    match op {
      case Assign(w, org) => AssignedOwners(s, w, org, v, b);
      case Destroy(w) => assert WrapperOk(s, w);
      case Close(w) => assert WrapperOk(s, w);
      case Move(w) => assert WrapperOk(s, w);
      case Finish(c) => assert BlockOk(s, c);
      case _ =>
    }
  }

  lemma AssignedOwners(s: State, w: nat, org: nat, v: nat, b: nat)
    requires Sound(s) && Holds(s, w) && Holds(s, org)
    ensures Owns(Assigned(s, w, org), v, b) <==> if v == w then w != org && Owns(s, org, b) else v != org && Owns(s, v, b)
  {
    assert WrapperOk(s, w) && WrapperOk(s, org);
    LetGoKeeps(s, w);
    var t := LetGo(s, w);
    assert |t.wrappers| == |s.wrappers| && forall u :: 0 <= u < |t.wrappers| && u != w ==> t.wrappers[u] == s.wrappers[u];
  }

  /** A wrapper lives until it is destroyed. */
  lemma LivesUntilDestroyed(s: State, op: Op, v: nat)
    requires Sound(s) && Possible(s, op)
    ensures Holds(After(s, op), v) <==>
            (Holds(s, v) && op != Destroy(v)) || (v == |s.wrappers| && (op.Construct? || op.Move?))
  {
    match op {
      case Assign(w, org) => LetGoKeeps(s, w);
      case Destroy(w) => assert WrapperOk(s, w);
      case Finish(b) => assert BlockOk(s, b);
      case _ =>
    }
  }

  /** A new handle is open and belongs to its wrapper. */
  lemma ConstructsOpen(s: State)
    requires Sound(s)
    ensures var t := After(s, Construct);
            |t.blocks| == |s.blocks| + 1 && IsOpen(t, |s.blocks|) && Owns(t, |s.wrappers|, |s.blocks|)
  {
    OwnerLaw(s, Construct, |s.wrappers|, |s.blocks|);
  }
}
