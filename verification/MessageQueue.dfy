/** source/core/message-queue.c: one message list for each priority, the highest priority first. */
module MessageQueue {
  import opened Wrappers
  import opened MessageList

  const PRIO_LENGTH := 3

  /** The first list from i on that is not empty, or PRIO_LENGTH. */
  ghost function FirstFilled<T>(lists: seq<seq<T>>, i: nat): (r: nat)
    requires i <= |lists|
    ensures i <= r <= |lists| && (r < |lists| ==> lists[r] != [])
    ensures forall j :: i <= j < r ==> lists[j] == []
    decreases |lists| - i
  {
    if i == |lists| || lists[i] != [] then i else FirstFilled(lists, i + 1)
  }

  lemma {:induction false} FirstFilledIs<T>(lists: seq<seq<T>>, i: nat, p: nat)
    requires i <= p <= |lists| && forall j :: i <= j < p ==> lists[j] == []
    requires p < |lists| ==> lists[p] != []
    ensures FirstFilled(lists, i) == p
    decreases p - i
  {
    if i < p {
      FirstFilledIs(lists, i + 1, p);
    }
  }

  /** The lists after a pop. */
  ghost function Popped<T>(lists: seq<seq<T>>): seq<seq<T>> {
    var p := FirstFilled(lists, 0);
    if p == |lists| then lists else lists[p := lists[p][1..]]
  }

  ghost function Flatten<T>(lists: seq<seq<T>>): seq<T> {
    if lists == [] then [] else lists[0] + Flatten(lists[1..])
  }

  /** A pop takes the first message of all, in the order of the priorities and in each priority in the order of
      the pushes. */
  lemma {:induction false} PopTakesFirst<T>(lists: seq<seq<T>>)
    ensures FirstFilled(lists, 0) == |lists| <==> Flatten(lists) == []
    ensures var p := FirstFilled(lists, 0);
            p < |lists| ==> Flatten(lists) == [lists[p][0]] + Flatten(Popped(lists))
    decreases |lists|
  {
    if lists == [] {
      return;
    }
    var first, rest := lists[0], lists[1..];
    assert lists == [first] + rest;
    FlattenCons(first, rest);
    hide Flatten;
    if first == [] {
      FilledLater(lists, 0);
      PopTakesFirst(rest);
      hide FirstFilled;
      if FirstFilled(rest, 0) < |rest| {
        assert Popped(lists) == [first] + Popped(rest);
      }
      FlattenCons(first, Popped(rest));
    } else {
      assert FirstFilled(lists, 0) == 0;
      hide FirstFilled;
      assert Popped(lists) == [first[1..]] + rest;
      FlattenCons(first[1..], rest);
      assert first == [first[0]] + first[1..];
    }
  }

  lemma FlattenCons<T>(first: seq<T>, rest: seq<seq<T>>)
    ensures Flatten([first] + rest) == first + Flatten(rest)
  {
    assert ([first] + rest)[1..] == rest;
  }

  lemma {:induction false} FilledLater<T>(lists: seq<seq<T>>, i: nat)
    requires i < |lists|
    ensures FirstFilled(lists, i + 1) == FirstFilled(lists[1..], i) + 1
    decreases |lists| - i
  {
    if i + 1 < |lists| {
      FilledLater(lists, i + 1);
    }
  }

  /** A push puts the message behind those of its priority and above. */
  lemma {:induction false} PushGoesBehind<T>(lists: seq<seq<T>>, p: nat, x: T)
    requires p < |lists|
    ensures Flatten(lists[p := lists[p] + [x]]) == Flatten(lists[..p + 1]) + [x] + Flatten(lists[p + 1..])
  {
    var pushed := lists[p := lists[p] + [x]];
    if p == 0 {
      assert pushed[1..] == lists[1..];
      assert lists[..1][1..] == [] && Flatten(lists[..1]) == lists[0];
    } else {
      PushGoesBehind(lists[1..], p - 1, x);
      assert pushed[1..] == lists[1..][p - 1 := lists[1..][p - 1] + [x]];
      assert lists[..p + 1][1..] == lists[1..][..p];
      assert lists[1..][p..] == lists[p + 1..];
    }
  }

  lemma FlattenLength<T>(lists: seq<seq<T>>)
    requires |lists| == 3
    ensures |Flatten(lists)| == |lists[0]| + |lists[1]| + |lists[2]|
  {
    var two, one := lists[1..], lists[1..][1..];
    assert Flatten(lists) == lists[0] + Flatten(two);
    assert Flatten(two) == lists[1] + Flatten(one);
    assert Flatten(one) == lists[2] + Flatten(one[1..]);
    assert one[1..] == [];
  }

  ghost predicate Lacks(list: seq<MsgPtr>, msgType: nat) {
    forall i :: 0 <= i < |list| ==> list[i].msgType != msgType
  }

  ghost predicate IsFirst(m: MsgPtr, list: seq<MsgPtr>, msgType: nat) {
    exists k :: 0 <= k < |list| && list[k] == m && m.msgType == msgType && Lacks(list[..k], msgType)
  }

  class MsgQueue {
    const listPrio: seq<MsgList>

    ghost predicate Separate()
      reads listPrio
    {
      && |listPrio| == PRIO_LENGTH
      && (forall i, j :: 0 <= i < j < PRIO_LENGTH ==>
            listPrio[i] != listPrio[j] && listPrio[i].repr !! listPrio[j].repr)
    }

    ghost predicate Valid()
      reads listPrio, set l, n | l in listPrio && n in l.repr :: n
    {
      Separate() && forall i :: 0 <= i < PRIO_LENGTH ==> listPrio[i].Valid()
    }

    ghost function Contents(): seq<seq<MsgPtr>>
      requires |listPrio| == PRIO_LENGTH
      reads listPrio
    {
      [listPrio[0].contents, listPrio[1].contents, listPrio[2].contents]
    }

    /** msg_queue_init */
    constructor ()
      ensures Valid() && Contents() == [[], [], []] && forall i :: 0 <= i < PRIO_LENGTH ==> listPrio[i].repr == {}
    {
      hide MsgList.Valid;
      var high := new MsgList();
      var normal := new MsgList();
      var low := new MsgList();
      listPrio := [high, normal, low];
    }

    /** msg_queue_push */
    method Push(prio: nat, msgPtr: MsgPtr) returns (pushed: MsgPtr?)
      requires Valid()
      requires forall i :: 0 <= i < PRIO_LENGTH ==> msgPtr !in listPrio[i].repr && msgPtr !in listPrio[i].contents
      modifies listPrio, msgPtr, set l, n | l in listPrio && n in l.repr :: n
      ensures Valid()
      ensures pushed == if prio < PRIO_LENGTH then msgPtr else null
      ensures Contents() == if prio < PRIO_LENGTH then old(Contents())[prio := old(Contents()[prio]) + [msgPtr]]
                            else old(Contents())
      ensures forall i :: 0 <= i < PRIO_LENGTH ==>
                listPrio[i].repr == if i == prio then old(listPrio[i].repr) + {msgPtr} else old(listPrio[i].repr)
    {
      hide MsgList.Valid;
      if prio >= PRIO_LENGTH {
        return null;
      }
      listPrio[prio].Push(msgPtr);
      return msgPtr;
    }

    /** msg_queue_pop */
    method Pop() returns (msgPtr: MsgPtr?, prio: nat)
      requires Valid()
      modifies listPrio
      ensures Valid() && Contents() == Popped(old(Contents()))
      ensures prio == FirstFilled(old(Contents()), 0)
      ensures msgPtr == if prio == PRIO_LENGTH then null else old(Contents())[prio][0]
      ensures forall i :: 0 <= i < PRIO_LENGTH ==> listPrio[i].repr == old(listPrio[i].repr) - {msgPtr}
    {
      hide MsgList.Valid, FirstFilled;
      ghost var lists := Contents();
      prio := 0;
      while prio < PRIO_LENGTH
        invariant 0 <= prio <= PRIO_LENGTH && Valid() && Contents() == lists
        invariant forall i :: 0 <= i < PRIO_LENGTH ==> listPrio[i].repr == old(listPrio[i].repr)
        invariant forall j :: 0 <= j < prio ==> lists[j] == []
      {
        msgPtr := listPrio[prio].Pop();
        if msgPtr != null {
          FirstFilledIs(lists, 0, prio);
          return;
        }
        prio := prio + 1;
      }
      FirstFilledIs(lists, 0, prio);
      msgPtr := null;
    }

    /** msg_queue_peek */
    method Peek() returns (msgPtr: MsgPtr?, prio: nat)
      requires Valid()
      ensures prio == FirstFilled(Contents(), 0)
      ensures msgPtr == if prio == PRIO_LENGTH then null else Contents()[prio][0]
    {
      hide MsgList.Valid, FirstFilled;
      ghost var lists := Contents();
      prio := 0;
      while prio < PRIO_LENGTH
        invariant 0 <= prio <= PRIO_LENGTH
        invariant forall j :: 0 <= j < prio ==> lists[j] == []
      {
        msgPtr := listPrio[prio].Peek();
        if msgPtr != null {
          FirstFilledIs(lists, 0, prio);
          return;
        }
        prio := prio + 1;
      }
      FirstFilledIs(lists, 0, prio);
      msgPtr := null;
    }

    /** msg_queue_find_msgtype: in the list of the given priority, or with any other number in all
        of them from the highest on; `at` is the priority of the list it is in. */
    method FindMsgType(prio: nat, msgType: nat) returns (found: MsgPtr?, at: nat)
      requires Valid()
      ensures found == null ==>
                && at == prio
                && forall p :: 0 <= p < PRIO_LENGTH && (prio < PRIO_LENGTH ==> p == prio) ==>
                     Lacks(Contents()[p], msgType)
      ensures found != null ==>
                && at < PRIO_LENGTH && (prio < PRIO_LENGTH ==> at == prio)
                && IsFirst(found, Contents()[at], msgType)
                && forall p :: 0 <= p < at && prio >= PRIO_LENGTH ==> Lacks(Contents()[p], msgType)
    {
      hide MsgList.Valid;
      if prio < PRIO_LENGTH {
        found := listPrio[prio].FindMsgType(msgType);
        return found, prio;
      }
      at := 0;
      while at < PRIO_LENGTH
        invariant 0 <= at <= PRIO_LENGTH
        invariant forall p :: 0 <= p < at ==> Lacks(Contents()[p], msgType)
      {
        found := listPrio[at].FindMsgType(msgType);
        if found != null {
          return;
        }
        at := at + 1;
      }
      return null, prio;
    }

    /** msg_queue_length */
    method Length() returns (length: nat)
      requires Valid()
      ensures length == |Flatten(Contents())|
    {
      FlattenLength(Contents());
      length := listPrio[0].length + listPrio[1].length + listPrio[2].length;
    }
  }
}
