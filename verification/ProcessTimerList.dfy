/** The process timers of source/core/scheduler.c in place: a linked list of timer objects, proved against
    ProcessTimerRuns. */
module ProcessTimerList {
  import opened Wrappers
  import opened Timers
  import R = ProcessTimerRuns

  /** struct process_timer; process and event are only handed on. */
  class ProcessTimer {
    var next: ProcessTimer?
    var timer: Timer

    constructor ()
      ensures next == null && timer == STOPPED
    {
      next, timer := null, STOPPED;
    }
  }

  /** The timers of struct scheduler. `known` are all process timers of the program; `react` says what the
      processes do with them when they are called for the n-th time. */
  class TimerScheduler {
    ghost const known: set<ProcessTimer>
    const react: nat -> seq<R.Command<ProcessTimer>>
    var head: ProcessTimer?
    var calls: nat
    ghost var list: seq<ProcessTimer>
    ghost var log: seq<R.Event<ProcessTimer>>

    ghost function Node(i: nat): ProcessTimer?
      reads this`list
    {
      if i < |list| then list[i] else null
    }

    ghost predicate Linked()
      reads this`head, this`list, known`next
    {
      && head == Node(0)
      && (forall t :: t in list ==> t in known)
      && (forall i :: 0 <= i < |list| ==> list[i].next == Node(i + 1))
    }

    ghost predicate Valid()
      reads this, known
    {
      Linked() && Distinct(View().list) && ReactsToKnown()
    }

    ghost predicate ReactsToKnown() {
      forall n: nat, i :: 0 <= i < |react(n)| ==> react(n)[i].t in known
    }

    ghost function View(): R.State<ProcessTimer>
      reads this, known
    {
      R.State(list, Timers(), calls, log)
    }

    ghost function Timers(): map<ProcessTimer, Timer>
      reads known`timer
    {
      map t | t in known :: t.timer
    }

    constructor (ghost known: set<ProcessTimer>, react: nat -> seq<R.Command<ProcessTimer>>)
      requires forall n: nat, i :: 0 <= i < |react(n)| ==> react(n)[i].t in known
      ensures Valid() && this.known == known && this.react == react && list == [] && log == [] && calls == 0
    {
      this.known, this.react := known, react;
      head, calls, list, log := null, 0, [], [];
    }

    /** scheduler_timer_start */
    method Start(t: ProcessTimer, ms: Uint32, now: Uint32)
      requires Valid() && t in known
      modifies this, known
      ensures Valid() && View() == R.Do(old(View()), R.Start(t, ms), now)
    {
      hide Distinct, Linked, View, ReactsToKnown;
      SetTimer(t, Timer(now, ms), R.Started(t, now, ms));
      var found := Find(t);
      if found {
        return;
      }
      R.DistinctCons(t, View().list);
      Prepend(t);
    }

    method SetTimer(t: ProcessTimer, timer: Timer, ghost e: R.Event<ProcessTimer>)
      requires Linked() && t in known
      modifies t`timer, this`log
      ensures Linked()
      ensures View() == old(View()).(timer := old(View()).timer[t := timer], log := old(View()).log + [e])
    {
      t.timer := timer;
      log := log + [e];
    }

    /** The search of scheduler_timer_start. */
    method Find(t: ProcessTimer) returns (found: bool)
      requires Linked()
      ensures found == (t in View().list)
    {
      var tmp := head;
      ghost var i := 0;
      while tmp != null && tmp != t
        invariant i <= |list| && tmp == Node(i) && t !in list[..i]
        decreases |list| - i
      {
        tmp := tmp.next;
        i := i + 1;
      }
      assert list[..|list|] == list;
      return tmp == t;
    }

    method Prepend(t: ProcessTimer)
      requires Linked() && t in known && t !in View().list
      modifies this`head, this`list, t`next
      ensures Linked() && View() == old(View()).(list := [t] + old(View()).list)
    {
      t.next := head;
      head := t;
      list := [t] + list;
    }

    /** scheduler_timer_stop */
    method Stop(t: ProcessTimer, now: Uint32)
      requires Valid() && t in known
      modifies this, known
      ensures Valid() && View() == R.Do(old(View()), R.Stop(t), now)
    {
      hide Distinct, Linked, View, ReactsToKnown;
      SetTimer(t, STOPPED, R.Stopped(t));
      R.RemoveIsOut(View().list, t);
      HeadOfList();
      if t == head {
        R.RemoveAt(View().list, 0);
        UnlinkHead();
      } else {
        var tmp, i := FindBefore(t);
        if tmp != null {
          R.RemoveAt(View().list, i);
          UnlinkAfter(tmp, i);
        } else {
          R.RemoveAbsent(View().list, t);
        }
      }
    }

    lemma HeadOfList()
      requires Linked()
      ensures head == if View().list == [] then null else View().list[0]
    {
    }

    /** The search of scheduler_timer_stop: the node before t. */
    method FindBefore(t: ProcessTimer) returns (tmp: ProcessTimer?, ghost i: nat)
      requires Linked() && t != head
      ensures if tmp == null then t !in View().list
              else 0 < i < |View().list| && tmp == View().list[i - 1] && t == View().list[i]
    {
      tmp, i := head, 0;
      while tmp != null
        invariant i <= |list| && tmp == Node(i) && t !in list[..i] && Node(i) != t
        decreases |list| - i
      {
        if tmp.next == t {
          i := i + 1;
          return;
        }
        tmp := tmp.next;
        i := i + 1;
      }
      assert list[..|list|] == list;
    }

    lemma IsFormed()
      requires Linked()
      ensures R.Formed(View())
    {
    }

    /** The loop of scheduler_timer_find_expired: the first expired timer and the node before it. */
    method Search(now: Uint32) returns (tmp: ProcessTimer?, prev: ProcessTimer?, ghost i: nat)
      requires Linked()
      ensures R.Formed(View())
      ensures R.FindFrom(View(), 0, now) == if tmp == null then None else Some(i)
      ensures tmp != null ==> i < |View().list| && tmp == View().list[i] && (i > 0 ==> prev == View().list[i - 1])
    {
      IsFormed();
      hide Expired, R.Formed, R.FindFrom;
      prev := head;
      tmp, i := prev, 0;
      while tmp != null
        invariant i <= |list| && tmp == Node(i) && (i > 0 ==> prev == list[i - 1])
        invariant R.FindFrom(View(), 0, now) == R.FindFrom(View(), i, now)
        decreases |list| - i
      {
        R.FindFromStep(View(), i, now);
        if Expired(tmp.timer, now) {
          return;
        }
        prev, tmp := tmp, tmp.next;
        i := i + 1;
      }
      R.FindFromStep(View(), i, now);
    }

    /** scheduler_timer_find_expired */
    method FindExpired(now: Uint32) returns (tmp: ProcessTimer?)
      requires Valid()
      modifies this, known
      ensures Valid() && R.Formed(old(View()))
      ensures match R.FindFrom(old(View()), 0, now)
              case None => tmp == null && View() == old(View())
              case Some(i) => tmp == old(View()).list[i] && View() == R.Take(old(View()), i, now)
    {
      hide Distinct, Linked, View, ReactsToKnown, R.Formed;
      IsFormed();
      var prev;
      ghost var i;
      tmp, prev, i := Search(now);
      if tmp != null {
        R.RemoveAt(View().list, i);
        R.RemoveIsOut(View().list, View().list[i]);
        KnownTimer(i);
        SetTimer(tmp, STOPPED, R.Fired(tmp, now));
        HeadOfList();
        if tmp == head {
          R.DistinctHead(View().list, i);
          UnlinkHead();
        } else {
          UnlinkAfter(prev, i);
        }
      }
    }

    lemma KnownTimer(i: nat)
      requires Linked() && i < |View().list|
      ensures View().list[i] in known
    {
    }

    /** A process is called; it starts and stops timers. */
    method CallProcess(now: Uint32)
      requires Valid()
      modifies this, known
      ensures Valid()
      ensures View() == R.DoAll(old(View()).(calls := old(View()).calls + 1), react(old(View()).calls), now)
    {
      var commands := react(calls);
      calls := calls + 1;
      ghost var s := View();
      assert R.DoAll(s, commands[..0], now) == s;
      for k := 0 to |commands|
        invariant Valid() && View() == R.DoAll(s, commands[..k], now)
      {
        assert commands[..k + 1][..k] == commands[..k];
        match commands[k]
        case Start(t, ms) => Start(t, ms, now);
        case Stop(t) => Stop(t, now);
      }
      assert commands[..|commands|] == commands;
    }

    /** One round of scheduler_timer_handler. */
    method HandleOne(now: Uint32) returns (more: bool)
      requires Valid()
      modifies this, known
      ensures Valid() && R.Formed(old(View()))
      ensures match R.FindFrom(old(View()), 0, now)
              case None => !more && View() == old(View())
              case Some(i) => more && View() == R.Round(old(View()), i, react, now)
    {
      hide Valid, View, R.Formed, R.FindFrom, R.DoAll, Expired;
      var tmp := FindExpired(now);
      more := tmp != null;
      if tmp != null {
        CallProcess(now);
      }
    }

    /** scheduler_timer_handler */
    method Handler(now: Uint32)
      requires Valid()
      modifies this, known
      ensures Valid() && R.Formed(old(View())) && View() == R.Handle(old(View()), react, now)
    {
      IsFormed();
      hide Valid, View, R.Formed, R.Due, R.FindFrom, R.Round, Expired;
      var more := true;
      while more
        invariant Valid() && R.Formed(View())
        invariant R.Handle(old(View()), react, now) == R.Handle(View(), react, now)
        invariant !more ==> R.Handle(View(), react, now) == View()
        decreases more, |R.Due(View(), now)|
      {
        ghost var s := View();
        more := HandleOne(now);
        if more {
          R.RoundLowersDue(s, R.FindFrom(s, 0, now).value, react, now);
        }
      }
    }

    /** Takes the first node out of the list. */
    method UnlinkHead()
      requires Linked() && View().list != []
      modifies this`head, this`list
      ensures Linked() && View() == old(View()).(list := old(View()).list[1..])
    {
      hide Timers;
      head := head.next;
      list := list[1..];
    }

    /** Takes the node in place i out of the list, given the node before it. */
    method UnlinkAfter(prev: ProcessTimer, ghost i: nat)
      requires Linked() && Distinct(View().list) && 0 < i < |View().list| && prev == View().list[i - 1]
      modifies this`list, known`next
      ensures Linked() && View() == old(View()).(list := old(View()).list[..i] + old(View()).list[i + 1..])
    {
      hide Timers;
      ghost var was := list;
      assert forall j :: 0 <= j < |was| && j != i - 1 ==> was[j] != prev;
      hide Distinct;
      prev.next := prev.next.next;
      list := was[..i] + was[i + 1..];
      Cut(was, i, list);
    }
  }

  lemma Cut<T>(s: seq<T>, i: nat, cut: seq<T>)
    requires i < |s| && cut == s[..i] + s[i + 1..]
    ensures |cut| == |s| - 1
    ensures forall j :: 0 <= j < i ==> cut[j] == s[j]
    ensures forall j :: i <= j < |cut| ==> cut[j] == s[j + 1]
  {
  }
}
