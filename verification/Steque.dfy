/** The singly linked steque (a stack-ended queue) that carries every work queue and the segment
    pool.  `spine` is the chain of nodes from front to back. */
module Steque {
  import opened Basics

  class Node<T> {
    var item: T
    var next: Node?<T>

    constructor (item: T, next: Node?<T>)
      ensures this.item == item && this.next == next
    {
      this.item, this.next := item, next;
    }
  }

  class Steque<T> {
    var front: Node?<T>
    var back: Node?<T>
    var N: nat
    ghost var spine: seq<Node<T>>

    ghost predicate Valid()
      reads this, spine
    {
      && N == |spine|
      && (forall i, j :: 0 <= i < j < |spine| ==> spine[i] != spine[j])
      && (forall i :: 0 <= i < |spine| - 1 ==> spine[i].next == spine[i + 1])
      && if spine == [] then front == null && back == null
         else front == spine[0] && back == spine[|spine| - 1] && spine[|spine| - 1].next == null
    }

    ghost function Contents(): (r: seq<T>)
      reads this, spine
      ensures |r| == |spine| && forall i :: 0 <= i < |r| ==> r[i] == spine[i].item
    {
      seq(|spine|, i requires 0 <= i < |spine| reads this, spine => spine[i].item)
    }

    /** steque_init */
    constructor ()
      ensures Valid() && Contents() == []
    {
      front, back, N := null, null, 0;
      spine := [];
    }

    /** steque_init on a structure that is in use forgets its nodes. */
    method Init()
      modifies this
      ensures Valid() && Contents() == []
    {
      front, back, N := null, null, 0;
      spine := [];
    }

    method Enqueue(item: T)
      requires Valid()
      modifies this, spine
      ensures Valid() && Contents() == old(Contents()) + [item]
      ensures forall i :: 0 <= i < |spine| ==> spine[i] in old(spine) || fresh(spine[i])
    {
      var node := new Node(item, null);
      if back == null {
        front := node;
      } else {
        back.next := node;
      }
      back := node;
      N := N + 1;
      spine := spine + [node];
    }

    method Push(item: T)
      requires Valid()
      modifies this, spine
      ensures Valid() && Contents() == [item] + old(Contents())
      ensures forall i :: 0 <= i < |spine| ==> spine[i] in old(spine) || fresh(spine[i])
    {
      var node := new Node(item, front);
      if back == null {
        back := node;
      }
      front := node;
      N := N + 1;
      spine := [node] + spine;
    }

    method Size() returns (n: nat)
      requires Valid()
      ensures n == |Contents()|
    {
      n := N;
    }

    method IsEmpty() returns (b: bool)
      requires Valid()
      ensures b <==> Contents() == []
    {
      b := N == 0;
    }

    /** None stands for the underflow message and the exit of the process. */
    method Pop() returns (ans: Option<T>)
      requires Valid()
      modifies this, spine
      ensures Valid()
      ensures old(Contents()) == [] ==> ans == None && Contents() == []
      ensures old(Contents()) != [] ==> ans == Some(old(Contents())[0]) && Contents() == old(Contents())[1..]
      ensures forall i :: 0 <= i < |spine| ==> spine[i] in old(spine)
    {
      if front == null {
        return None;
      }
      var node := front;
      ans := Some(node.item);
      front := front.next;
      if front == null {
        back := null;
      }
      N := N - 1;
      spine := spine[1..];
    }

    /** Moves the front node behind the back one, without allocating. */
    method Cycle()
      requires Valid()
      modifies this, spine
      ensures Valid() && Contents() == Rotated(old(Contents()))
      ensures forall i :: 0 <= i < |spine| ==> spine[i] in old(spine)
    {
      if back == null {
        return;
      }
      ghost var first := spine[0];
      back.next := front;
      back := front;
      front := front.next;
      back.next := null;
      spine := spine[1..] + [first];
    }

    method Front() returns (ans: Option<T>)
      requires Valid()
      ensures ans == if Contents() == [] then None else Some(Contents()[0])
    {
      if front == null {
        return None;
      }
      ans := Some(front.item);
    }

    method Destroy()
      requires Valid()
      modifies this, spine
      ensures Valid() && Contents() == []
      ensures front == null && back == null
    {
      while N != 0
        invariant Valid()
        invariant forall i :: 0 <= i < |spine| ==> spine[i] in old(spine)
        decreases N
      {
        var dropped := Pop();
      }
    }

    /** One operation, with what it returns, if anything. */
    method Apply(op: Op<T>) returns (answers: seq<Answer<T>>)
      requires Valid()
      modifies this, spine
      ensures Valid() && (Contents(), answers) == Effect(old(Contents()), op)
      ensures forall i :: 0 <= i < |spine| ==> spine[i] in old(spine) || fresh(spine[i])
    {
      answers := [];
      match op
      case Init => Init();
      case Enqueue(x) => Enqueue(x);
      case Push(x) => Push(x);
      case Cycle => Cycle();
      case Destroy => Destroy();
      case Pop =>
        var ans := Pop();
        answers := [Popped(ans)];
      case Front =>
        var ans := Front();
        answers := [Fronted(ans)];
      case Size =>
        var n := Size();
        answers := [Sized(n)];
      case IsEmpty =>
        var b := IsEmpty();
        answers := [Emptied(b)];
    }

    /** Any sequence of operations. */
    method RunAll(ops: seq<Op<T>>) returns (answers: seq<Answer<T>>)
      requires Valid()
      modifies this, spine
      ensures Valid() && (Contents(), answers) == Run(old(Contents()), ops)
    {
      answers := [];
      for i := 0 to |ops|
        invariant Valid()
        invariant forall j :: 0 <= j < |spine| ==> spine[j] in old(spine) || fresh(spine[j])
        invariant (Contents(), answers) == Run(old(Contents()), ops[..i])
      {
        assert ops[..i + 1][..i] == ops[..i];
        var more := Apply(ops[i]);
        answers := answers + more;
      }
      assert ops[..|ops|] == ops;
    }
  }

  // ---------------------------------------------------------------- the sequence it stands for

  datatype Op<T> = Init | Enqueue(x: T) | Push(x: T) | Cycle | Pop | Front | Size | IsEmpty | Destroy

  datatype Answer<T> = Popped(item: Option<T>) | Fronted(item: Option<T>) | Sized(n: nat) | Emptied(b: bool)

  function Rotated<T>(s: seq<T>): seq<T> {
    if s == [] then [] else s[1..] + [s[0]]
  }

  function First<T>(t: seq<T>): Option<T> {
    if t == [] then None else Some(t[0])
  }

  function Effect<T>(t: seq<T>, op: Op<T>): (seq<T>, seq<Answer<T>>) {
    match op
    case Enqueue(x) => (t + [x], [])
    case Push(x) => ([x] + t, [])
    case Cycle => (Rotated(t), [])
    case Pop => (if t == [] then t else t[1..], [Popped(First(t))])
    case Front => (t, [Fronted(First(t))])
    case Size => (t, [Sized(|t|)])
    case IsEmpty => (t, [Emptied(|t| == 0)])
    case Init | Destroy => ([], [])
  }

  function Run<T>(s: seq<T>, ops: seq<Op<T>>): (seq<T>, seq<Answer<T>>) {
    if ops == [] then (s, [])
    else
      var (t, answers) := Run(s, ops[..|ops| - 1]);
      var (u, more) := Effect(t, ops[|ops| - 1]);
      (u, answers + more)
  }

  /** What an answer takes out of the steque. */
  function LeavesBy<T>(a: Answer<T>): seq<T> {
    match a { case Popped(Some(x)) => [x] case _ => [] }
  }

  function Leaving<T>(answers: seq<Answer<T>>): seq<T> {
    if answers == [] then [] else Leaving(answers[..|answers| - 1]) + LeavesBy(answers[|answers| - 1])
  }

  function AddedBy<T>(op: Op<T>): seq<T> {
    match op { case Enqueue(x) => [x] case Push(x) => [x] case _ => [] }
  }

  function Inserted<T>(ops: seq<Op<T>>): seq<T> {
    if ops == [] then [] else Inserted(ops[..|ops| - 1]) + AddedBy(ops[|ops| - 1])
  }

  lemma LeavingAppend<T>(answers: seq<Answer<T>>, more: seq<Answer<T>>)
    requires |more| <= 1
    ensures Leaving(answers + more) == Leaving(answers) + if more == [] then [] else LeavesBy(more[0])
  {
    if more == [] {
      assert answers + more == answers;
    } else {
      assert (answers + more)[..|answers + more| - 1] == answers;
    }
  }

  lemma QueueStep<T>(t: seq<T>, answers: seq<Answer<T>>, op: Op<T>)
    requires !op.Push? && !op.Cycle? && !Forgets(op)
    ensures var (u, more) := Effect(t, op);
            Leaving(answers + more) + u == Leaving(answers) + t + AddedBy(op)
  {
    LeavingAppend(answers, Effect(t, op).1);
  }

  /** As a queue: under enqueue, pop and the questions, items leave in the order in which they
      entered. */
  lemma {:induction false} FirstInFirstOut<T>(s: seq<T>, ops: seq<Op<T>>)
    requires forall i :: 0 <= i < |ops| ==> !ops[i].Push? && !ops[i].Cycle? && !Forgets(ops[i])
    ensures Leaving(Run(s, ops).1) + Run(s, ops).0 == s + Inserted(ops)
  {
    if ops == [] {
      assert s + [] == s && [] + s == s;
    } else {
      var before, op := ops[..|ops| - 1], ops[|ops| - 1];
      FirstInFirstOut(s, before);
      var (t, answers) := Run(s, before);
      assert Run(s, ops) == (Effect(t, op).0, answers + Effect(t, op).1);
      assert Inserted(ops) == Inserted(before) + AddedBy(op);
      hide Run, Effect, Leaving, Inserted, AddedBy, Forgets;
      QueueStep(t, answers, op);
      assert (s + Inserted(before)) + AddedBy(op) == s + Inserted(ops);
    }
  }

  /** destroy frees the nodes, and init on a steque in use drops them. */
  predicate Forgets<T>(op: Op<T>) { op.Destroy? || op.Init? }

  function Items<T>(contents: seq<T>, answers: seq<Answer<T>>): multiset<T> {
    multiset(Leaving(answers)) + multiset(contents)
  }

  lemma ItemsGrow<T>(m: multiset<T>, m': multiset<T>, out: seq<T>, gone: seq<T>, t: seq<T>, u: seq<T>, added: seq<T>)
    requires multiset(out) + multiset(t) == m + m'
    requires multiset(gone) + multiset(u) == multiset(t) + multiset(added)
    ensures multiset(out + gone) + multiset(u) == m + (m' + multiset(added))
  {
    calc {
      multiset(out + gone) + multiset(u);
      multiset(out) + (multiset(gone) + multiset(u));
      multiset(out) + (multiset(t) + multiset(added));
      (multiset(out) + multiset(t)) + multiset(added);
      m + (m' + multiset(added));
    }
  }

  lemma FirstAndRest<T>(t: seq<T>)
    requires t != []
    ensures multiset([t[0]]) + multiset(t[1..]) == multiset(t) == multiset(t[1..] + [t[0]])
  {
    assert t == [t[0]] + t[1..];
  }

  lemma EffectKeepsItems<T>(t: seq<T>, op: Op<T>)
    requires !Forgets(op)
    ensures var (u, more) := Effect(t, op);
            |more| <= 1 && multiset(if more == [] then [] else LeavesBy(more[0])) + multiset(u) == multiset(t) + multiset(AddedBy(op))
  {
    if t != [] {
      FirstAndRest(t);
    }
  }

  /** Whatever the operations short of init and destroy, nothing is lost and nothing is duplicated. */
  lemma {:induction false} ItemsAreConserved<T>(s: seq<T>, ops: seq<Op<T>>)
    requires forall i :: 0 <= i < |ops| ==> !Forgets(ops[i])
    ensures Items(Run(s, ops).0, Run(s, ops).1) == multiset(s) + multiset(Inserted(ops))
  {
    if ops == [] {
    } else {
      var before, op := ops[..|ops| - 1], ops[|ops| - 1];
      ItemsAreConserved(s, before);
      var (t, answers) := Run(s, before);
      assert Run(s, ops) == (Effect(t, op).0, answers + Effect(t, op).1);
      assert Inserted(ops) == Inserted(before) + AddedBy(op);
      hide Run, Effect, Forgets, Leaving, Inserted, AddedBy, LeavesBy;
      EffectKeepsItems(t, op);
      var (u, more) := Effect(t, op);
      LeavingAppend(answers, more);
      var gone := if more == [] then [] else LeavesBy(more[0]);
      assert Leaving(answers + more) == Leaving(answers) + gone;
      ItemsGrow(multiset(s), multiset(Inserted(before)), Leaving(answers), gone, t, u, AddedBy(op));
    }
  }

  function Rotations<T>(s: seq<T>, k: nat): seq<T> {
    if k == 0 then s else Rotated(Rotations(s, k - 1))
  }

  /** k cycles move the first k items to the back; as many cycles as items change nothing. */
  lemma {:induction false} CyclesRotate<T>(s: seq<T>, k: nat)
    requires k <= |s|
    ensures Rotations(s, k) == s[k..] + s[..k]
  {
    if k == 0 {
    } else {
      CyclesRotate(s, k - 1);
      assert (s[k - 1..] + s[..k - 1])[1..] + [s[k - 1]] == s[k..] + s[..k];
    }
  }

  lemma RunLast<T>(s: seq<T>, ops: seq<Op<T>>, op: Op<T>)
    ensures Run(s, ops + [op]) == (Effect(Run(s, ops).0, op).0, Run(s, ops).1 + Effect(Run(s, ops).0, op).1)
  {
    assert (ops + [op])[..|ops + [op]| - 1] == ops;
  }

  /** As a stack: a pop right after a push takes back what was pushed and leaves the rest as it was. */
  lemma LastInFirstOut<T>(s: seq<T>, ops: seq<Op<T>>, x: T)
    ensures Run(s, ops + [Push(x)] + [Pop]) == (Run(s, ops).0, Run(s, ops).1 + [Popped(Some(x))])
  {
    RunLast(s, ops, Push(x));
    RunLast(s, ops + [Push(x)], Pop);
    hide Run;
    assert ([x] + Run(s, ops).0)[1..] == Run(s, ops).0;
    assert Run(s, ops).1 + [] == Run(s, ops).1;
  }

  /** steque_front answers what a pop would, and changes nothing. */
  lemma FrontForetellsPop<T>(s: seq<T>, ops: seq<Op<T>>) returns (item: Option<T>)
    ensures Run(s, ops + [Front]) == (Run(s, ops).0, Run(s, ops).1 + [Fronted(item)])
    ensures Run(s, ops + [Pop]).1 == Run(s, ops).1 + [Popped(item)]
  {
    item := First(Run(s, ops).0);
    RunLast(s, ops, Front);
    RunLast(s, ops, Pop);
  }

  /** steque_cycle is a pop followed by an enqueue of what was popped, and nothing on an empty steque. */
  lemma CycleRequeuesFirst<T>(s: seq<T>, ops: seq<Op<T>>, x: T)
    requires Run(s, ops + [Pop]).1 == Run(s, ops).1 + [Popped(Some(x))]
    ensures Run(s, ops + [Cycle]) == (Run(s, ops + [Pop] + [Enqueue(x)]).0, Run(s, ops).1)
  {
    RunLast(s, ops, Pop);
    RunLast(s, ops, Cycle);
    RunLast(s, ops + [Pop], Enqueue(x));
    hide Run;
    var t, answers := Run(s, ops).0, Run(s, ops).1;
    assert answers + [] == answers;
    assert (answers + [Popped(First(t))])[|answers|] == Popped(Some(x));
  }

  lemma CycleOfNothing<T>(s: seq<T>, ops: seq<Op<T>>)
    requires Run(s, ops + [Pop]).1 == Run(s, ops).1 + [Popped(None)]
    ensures Run(s, ops + [Cycle]) == Run(s, ops) && Run(s, ops).0 == []
  {
    RunLast(s, ops, Pop);
    RunLast(s, ops, Cycle);
    hide Run;
    var t, answers := Run(s, ops).0, Run(s, ops).1;
    assert answers + [] == answers;
    assert (answers + [Popped(First(t))])[|answers|] == Popped(None);
  }

  lemma {:induction false} SizesAgree<T>(s: seq<T>, ops: seq<Op<T>>)
    requires forall i :: 0 <= i < |ops| ==> !Forgets(ops[i])
    ensures |Run(s, ops).0| + |Leaving(Run(s, ops).1)| == |s| + |Inserted(ops)|
  {
    if ops == [] {
    } else {
      var before, op := ops[..|ops| - 1], ops[|ops| - 1];
      SizesAgree(s, before);
      LeavingAppend(Run(s, before).1, Effect(Run(s, before).0, op).1);
    }
  }

  /** The size is what was there and what was put in, less what has left; empty means size 0. */
  lemma SizeCounts<T>(s: seq<T>, ops: seq<Op<T>>)
    requires forall i :: 0 <= i < |ops| ==> !Forgets(ops[i])
    ensures |Leaving(Run(s, ops).1)| <= |s| + |Inserted(ops)|
    ensures var n := |s| + |Inserted(ops)| - |Leaving(Run(s, ops).1)|;
            && Run(s, ops + [Size]) == (Run(s, ops).0, Run(s, ops).1 + [Sized(n)])
            && Run(s, ops + [IsEmpty]) == (Run(s, ops).0, Run(s, ops).1 + [Emptied(n == 0)])
  {
    RunLast(s, ops, Size);
    RunLast(s, ops, IsEmpty);
    hide Run, Leaving, Inserted;
    SizesAgree(s, ops);
  }

  /** After init or destroy a pop finds nothing. */
  lemma ForgettingEmpties<T>(s: seq<T>, ops: seq<Op<T>>, op: Op<T>)
    requires Forgets(op)
    ensures Run(s, ops + [op] + [Pop]) == ([], Run(s, ops).1 + [Popped(None)])
  {
    RunLast(s, ops, op);
    RunLast(s, ops + [op], Pop);
    hide Run;
    assert Run(s, ops).1 + [] == Run(s, ops).1;
  }
}
