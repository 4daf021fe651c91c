/**
 The `RerunManager`: a pending flag with the reason of the latest request,
 and two append-only lists of callbacks. Executing a pending rerun runs the
 pre-rerun callbacks in registration order, clears the flag and the reason,
 and hands control to the framework, which restarts the script and never
 returns; the post-rerun callbacks are therefore never reached.

 Callbacks are labels, and what happens is recorded as a trace of events.
 */
module Rerun {
  import opened Wrappers

  type Label = string

  datatype Event =
    | PreCallback(callback: Label)
    | PostCallback(callback: Label)
      /** The framework's `st.rerun()`: the last event of a run. */
    | Rerun

  datatype Manager = Manager(pending: bool, reason: Option<string>, pre: seq<Label>, post: seq<Label>)

  /** A fresh manager, as built at the start of every run. */
  function NewManager(): (m: Manager)
    ensures !m.pending && m.reason == None && m.pre == [] && m.post == []
  {
    Manager(false, None, [], [])
  }

  /** `request_rerun(reason)`: a later request overwrites the reason of an earlier one. */
  function RequestRerun(m: Manager, reason: Option<string>): (r: Manager)
    ensures r.pending && r.reason == reason
    ensures r.pre == m.pre && r.post == m.post
  {
    m.(pending := true, reason := reason)
  }

  /** `is_rerun_pending`: whether executing now would hand over to the framework. */
  function IsRerunPending(m: Manager): (b: bool)
    ensures b <==> Rerun in Execute(m).1
  {
    m.pending
  }

  /** `get_rerun_reason`. */
  function GetRerunReason(m: Manager): Option<string> {
    m.reason
  }

  /** `add_pre_rerun_callback`: appended, duplicates kept. */
  function AddPreCallback(m: Manager, l: Label): (r: Manager)
    ensures r.pre == m.pre + [l] && r.post == m.post
    ensures r.pending == m.pending && r.reason == m.reason
  {
    m.(pre := m.pre + [l])
  }

  /** `add_post_rerun_callback`: appended, duplicates kept. */
  function AddPostCallback(m: Manager, l: Label): (r: Manager)
    ensures r.post == m.post + [l] && r.pre == m.pre
    ensures r.pending == m.pending && r.reason == m.reason
  {
    m.(post := m.post + [l])
  }

  /** The events of running the callbacks `ls`, in order. */
  function PreEvents(ls: seq<Label>): (es: seq<Event>)
    ensures |es| == |ls|
    ensures forall i :: 0 <= i < |ls| ==> es[i] == PreCallback(ls[i])
  {
    seq(|ls|, i requires 0 <= i < |ls| => PreCallback(ls[i]))
  }

  /** The effect of `execute_pending_rerun` as a value: the new manager and the events it emits. */
  function Execute(m: Manager): (r: (Manager, seq<Event>))
    ensures !r.0.pending && r.0.pre == m.pre && r.0.post == m.post
    ensures !m.pending ==> r == (m, [])
    ensures m.pending ==> r.0.reason == None && |r.1| == |m.pre| + 1 && r.1[|m.pre|] == Rerun
  {
    if m.pending then (m.(pending := false, reason := None), PreEvents(m.pre) + [Rerun])
    else (m, [])
  }

  /** `execute_pending_rerun`: with nothing pending, nothing happens; otherwise
      the pre-rerun callbacks run in registration order, the flag and reason
      are cleared, and the rerun is the final event. */
  method ExecutePendingRerun(m: Manager, trace: seq<Event>) returns (r: Manager, out: seq<Event>)
    ensures !m.pending ==> r == m && out == trace
    ensures m.pending ==> !r.pending && r.reason == None && r.pre == m.pre && r.post == m.post
    ensures m.pending ==> out == trace + PreEvents(m.pre) + [Rerun]
    ensures r == Execute(m).0 && out == trace + Execute(m).1
  {
    r := m;
    out := trace;
    if m.pending {
      var i := 0;
      while i < |m.pre|
        invariant 0 <= i <= |m.pre|
        invariant out == trace + PreEvents(m.pre[..i])
      {
        out := out + [PreCallback(m.pre[i])];
        assert PreEvents(m.pre[..i + 1]) == PreEvents(m.pre[..i]) + [PreCallback(m.pre[i])];
        i := i + 1;
      }
      assert m.pre[..i] == m.pre;
      r := m.(pending := false, reason := None);
      out := out + [Rerun];
    } else {
      assert out == trace + [];
    }
  }

  /** Two requests before an execution leave only the second reason. */
  lemma LastReasonWins(m: Manager, a: Option<string>, b: Option<string>)
    ensures RequestRerun(RequestRerun(m, a), b) == RequestRerun(m, b)
    ensures GetRerunReason(RequestRerun(RequestRerun(m, a), b)) == b
  {
  }

  /** The pending query tells exactly whether executing will rerun. */
  lemma PendingIffRerun(m: Manager)
    ensures IsRerunPending(m) <==> Rerun in Execute(m).1
    ensures IsRerunPending(m) ==> Execute(m).1[|Execute(m).1| - 1] == Rerun
  {
    if m.pending {
      var es := Execute(m).1;
      assert es[|es| - 1] == Rerun;
    } else {
      assert Execute(m).1 == [];
    }
  }

  /** No post-rerun callback is ever emitted, and the rerun, when it happens, is
      the only one and comes last. */
  lemma NoPostCallbacks(m: Manager)
    ensures forall e :: e in Execute(m).1 ==> !e.PostCallback?
    ensures forall i :: 0 <= i < |Execute(m).1| - 1 ==> Execute(m).1[i] != Rerun
  {
    var es := Execute(m).1;
    if m.pending {
      forall e | e in es ensures !e.PostCallback? {
        var i :| 0 <= i < |es| && es[i] == e;
        if i < |m.pre| {
          assert es[i] == PreEvents(m.pre)[i];
        }
      }
      forall i | 0 <= i < |es| - 1 ensures es[i] != Rerun {
        assert es[i] == PreEvents(m.pre)[i];
      }
    }
  }

  /** After an execution nothing is pending, so a second one does nothing. */
  lemma ExecuteTwiceIsOnce(m: Manager)
    ensures !Execute(m).0.pending
    ensures m.pending ==> GetRerunReason(Execute(m).0) == None
    ensures Execute(Execute(m).0) == (Execute(m).0, [])
  {
  }

  /** An operation on the manager, as the page issues them. */
  datatype Op = Request(reason: Option<string>) | AddPre(callback: Label) | AddPost(callback: Label) | ExecuteOp

  function Apply(m: Manager, op: Op): Manager {
    match op
    case Request(reason) => RequestRerun(m, reason)
    case AddPre(l) => AddPreCallback(m, l)
    case AddPost(l) => AddPostCallback(m, l)
    case ExecuteOp => Execute(m).0
  }

  function ApplyAll(m: Manager, ops: seq<Op>): Manager
    decreases |ops|
  {
    if ops == [] then m else ApplyAll(Apply(m, ops[0]), ops[1..])
  }

  /** The callback lists only ever grow: whatever operations follow, the
      callbacks registered so far stay registered, in the same order. */
  lemma {:induction false} CallbacksOnlyGrow(m: Manager, ops: seq<Op>)
    ensures m.pre <= ApplyAll(m, ops).pre
    ensures m.post <= ApplyAll(m, ops).post
    decreases |ops|
  {
    if ops != [] {
      var m1 := Apply(m, ops[0]);
      CallbacksOnlyGrow(m1, ops[1..]);
      assert m.pre <= m1.pre && m.post <= m1.post;
    }
  }
}
