/** source/core/message-list.c: a singly linked message list with head and tail pointer, refining a sequence. */
module MessageList {
  import opened Wrappers

  /** A message as sent: its receiver and its bytes, the type first. */
  datatype Mail = Mail(receiver: nat, bytes: seq<Byte>)

  /** struct msg_ptr, in the allocator chunk whose payload starts at offset `addr`. Only the next pointer
      changes once a message is posted. The message bytes follow the node in the chunk; `mail` is what the
      sender put there. */
  class MsgPtr {
    var next: MsgPtr?
    const receiver: nat
    const length: nat
    const msgType: nat
    const addr: nat
    ghost const mail: Mail

    constructor (addr: nat, receiver: nat, length: nat, msgType: nat, ghost mail: Mail)
      ensures this.addr == addr && this.receiver == receiver && this.length == length && this.msgType == msgType
      ensures next == null && this.mail == mail
    {
      this.addr, this.receiver, this.length, this.msgType, this.mail := addr, receiver, length, msgType, mail;
      next := null;
    }
  }

  /** The k-th node, or null outside the list. */
  ghost function Nth(nodes: seq<MsgPtr>, k: int): MsgPtr? {
    if 0 <= k < |nodes| then nodes[k] else null
  }

  class MsgList {
    var msgHead: MsgPtr?
    var msgTail: MsgPtr?
    var length: nat
    ghost var contents: seq<MsgPtr>
    ghost var repr: set<MsgPtr>

    /** The next pointers thread the contents from head to null, and the tail is the last node. */
    ghost predicate Valid()
      reads this, repr
    {
      && Distinct(contents) && (forall i :: 0 <= i < |contents| ==> contents[i] in repr)
      && msgHead == Nth(contents, 0)
      && (forall i :: 0 <= i < |contents| ==> contents[i].next == Nth(contents, i + 1))
      && msgTail == Nth(contents, |contents| - 1)
      && length == |contents|
    }

    /** msg_list_init */
    constructor ()
      ensures Valid() && contents == [] && repr == {}
    {
      msgHead, msgTail, length := null, null, 0;
      contents, repr := [], {};
    }

    /** msg_list_push */
    method Push(msgPtr: MsgPtr)
      requires Valid() && msgPtr !in contents
      modifies this, msgPtr`next, repr`next
      ensures Valid() && contents == old(contents) + [msgPtr] && repr == old(repr) + {msgPtr}
    {
      msgPtr.next := null;
      if msgTail != null {
        msgTail.next := msgPtr;
      }
      msgTail := msgPtr;
      if msgHead == null {
        msgHead := msgPtr;
      }
      length := length + 1;
      contents, repr := contents + [msgPtr], repr + {msgPtr};
    }

    /** msg_list_pop */
    method Pop() returns (msgPtr: MsgPtr?)
      requires Valid()
      modifies this
      ensures Valid() && repr == old(repr) - {msgPtr} && (msgPtr != null ==> msgPtr in old(repr))
      ensures old(contents) == [] ==> msgPtr == null && contents == []
      ensures old(contents) != [] ==> msgPtr == old(contents)[0] && contents == old(contents)[1..]
    {
      msgPtr := msgHead;
      if msgPtr == null {
        return;
      }
      msgHead := msgPtr.next;
      if msgTail == msgPtr {
        msgTail := null;
      }
      if length > 0 {
        length := length - 1;
      }
      contents, repr := contents[1..], repr - {msgPtr};
    }

    /** msg_list_peek */
    method Peek() returns (msgPtr: MsgPtr?)
      requires Valid()
      ensures msgPtr == Nth(contents, 0)
    {
      msgPtr := msgHead;
    }

    /** msg_list_find_msgtype: the first message of that type */
    method FindMsgType(msgType: nat) returns (found: MsgPtr?)
      requires Valid()
      ensures found == null ==> forall i :: 0 <= i < |contents| ==> contents[i].msgType != msgType
      ensures found != null ==> exists k :: 0 <= k < |contents| && contents[k] == found && found.msgType == msgType &&
                                            forall i :: 0 <= i < k ==> contents[i].msgType != msgType
    {
      found := msgHead;
      ghost var k := 0;
      while found != null
        invariant 0 <= k <= |contents| && found == Nth(contents, k)
        invariant forall i :: 0 <= i < k ==> contents[i].msgType != msgType
        decreases |contents| - k
      {
        if found.msgType == msgType {
          return;
        }
        found := found.next;
        k := k + 1;
      }
    }
  }
}
