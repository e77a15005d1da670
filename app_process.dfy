/**
 * Activity tracking (appProcess.py): a process handle with its "done"
 * observers, and the container that keeps non-owning references to the
 * running processes and drives the activity view from their number.
 *
 * A weak reference is a `WeakRef` whose `live` flag says whether its referent
 * still exists; the view is a log of the calls made on it.
 */
module AppProcess {
  import opened Seqs
  import opened Text
  import opened Wrappers

  /** A "done" observer: a container's `on_done`, or a callback the model does not look into. */
  datatype Callback = ContainerOnDone(container: ProcessContainer) | Observer(name: string)

  /** `FCProcess`: one running, user-visible operation. */
  class Process {
    const descr: string
    var status: string
    var callbacks: seq<Callback>

    /** `connect` is the only way in, so no observer is registered twice. */
    ghost predicate Valid()
      reads this
    {
      NoDuplicates(callbacks)
    }

    constructor (descr: string)
      ensures Valid()
      ensures this.descr == descr && status == "Active" && callbacks == []
    {
      this.descr := descr;
      status := "Active";
      callbacks := [];
    }

    /**
     * `done`: every registered observer is called once, in registration
     * order, with this process; the list and the status are left as they are.
     */
    method Done() returns (calls: seq<(Callback, Process)>)
      ensures |calls| == |callbacks|
      ensures forall i :: 0 <= i < |calls| ==> calls[i] == (callbacks[i], this)
    {
      calls := [];
      for i := 0 to |callbacks|
        invariant |calls| == i
        invariant forall j :: 0 <= j < i ==> calls[j] == (callbacks[j], this)
      {
        calls := calls + [(callbacks[i], this)];
      }
    }

    /** `connect`: registers `cb` unless it is already there; afterwards it is there exactly once. */
    method Connect(cb: Callback)
      requires Valid()
      modifies this`callbacks
      ensures Valid()
      ensures callbacks == if cb in old(callbacks) then old(callbacks) else old(callbacks) + [cb]
      ensures multiset(callbacks)[cb] == 1
    {
      if cb !in callbacks {
        callbacks := callbacks + [cb];
      }
      NoDuplicatesOccursOnce(callbacks, cb);
    }

    /** `disconnect`: removes `cb`; an unregistered `cb` is no error and changes nothing. */
    method Disconnect(cb: Callback)
      requires Valid()
      modifies this`callbacks
      ensures Valid()
      ensures callbacks == RemoveFirst(old(callbacks), cb)
      ensures cb !in callbacks
      ensures cb !in old(callbacks) ==> callbacks == old(callbacks)
    {
      RemoveFirstNoDuplicates(callbacks, cb);
      callbacks := RemoveFirst(callbacks, cb);
    }

    /** `set_status`: only the status changes. */
    method SetStatus(statusString: string)
      modifies this`status
      ensures status == statusString
    {
      status := statusString;
    }
  }

  // ===========================================================================
  // The container's registry

  /** `weakref.ref(proc)`: `live` is false once the referent has been collected. */
  datatype WeakRef = WeakRef(target: Process, live: bool)

  /** `pref() == proc or pref() is None`: the entries `remove(proc)` deletes. */
  predicate Doomed(e: WeakRef, p: Process)
  {
    !e.live || e.target == p
  }

  /** The entries `remove(p)` keeps, in their order. */
  function Kept(s: seq<WeakRef>, p: Process): seq<WeakRef>
  {
    if s == [] then []
    else (if Doomed(s[0], p) then [] else [s[0]]) + Kept(s[1..], p)
  }

  /** The kept entries are exactly the live entries for processes other than `p`. */
  lemma {:induction false} KeptMembers(s: seq<WeakRef>, p: Process)
    ensures forall e :: e in Kept(s, p) ==> e in s && e.live && e.target != p
    ensures forall e :: e in s && !Doomed(e, p) ==> e in Kept(s, p)
  {
    if s != [] {
      KeptMembers(s[1..], p);
      assert s == [s[0]] + s[1..];
    }
  }

  /**
   * Pruning works entry by entry, so the kept entries stay in their relative
   * order: a concatenation is pruned piecewise.
   */
  lemma {:induction false} KeptAppend(a: seq<WeakRef>, b: seq<WeakRef>, p: Process)
    ensures Kept(a + b, p) == Kept(a, p) + Kept(b, p)
  {
    if a == [] {
      assert a + b == b;
    } else {
      KeptAppend(a[1..], b, p);
      KeptAppendStep(a, b, p);
    }
  }

  /** The inductive step of `KeptAppend`: from the tail of `a` to all of it. */
  lemma KeptAppendStep(a: seq<WeakRef>, b: seq<WeakRef>, p: Process)
    requires a != [] && Kept(a[1..] + b, p) == Kept(a[1..], p) + Kept(b, p)
    ensures Kept(a + b, p) == Kept(a, p) + Kept(b, p)
  {
    var t := a[1..];
    assert a == [a[0]] + t;
    assert a + b == [a[0]] + (t + b);
    KeptCons(a[0], t, p);
    KeptCons(a[0], t + b, p);
    var head := if Doomed(a[0], p) then [] else [a[0]];
    assert head + (Kept(t, p) + Kept(b, p)) == (head + Kept(t, p)) + Kept(b, p);
  }

  /** An entry put in front is pruned first, then the rest. */
  lemma KeptCons(x: WeakRef, s: seq<WeakRef>, p: Process)
    ensures Kept([x] + s, p) == (if Doomed(x, p) then [] else [x]) + Kept(s, p)
  {
    assert ([x] + s)[0] == x && ([x] + s)[1..] == s;
  }

  /** A single entry is kept exactly when it is not doomed. */
  lemma KeptSingle(e: WeakRef, p: Process)
    ensures Kept([e], p) == if Doomed(e, p) then [] else [e]
  {
    assert [e][1..] == [];
  }

  /** The entries `remove(p)` collects in its first pass, in their order. */
  function DoomedEntries(s: seq<WeakRef>, p: Process): (r: seq<WeakRef>)
    ensures forall e :: e in r ==> e in s && Doomed(e, p)
  {
    if s == [] then []
    else (if Doomed(s[0], p) then [s[0]] else []) + DoomedEntries(s[1..], p)
  }

  lemma {:induction false} DoomedEntriesAppend(s: seq<WeakRef>, e: WeakRef, p: Process)
    ensures DoomedEntries(s + [e], p) == DoomedEntries(s, p) + (if Doomed(e, p) then [e] else [])
  {
    if s == [] {
      assert [e][1..] == [];
    } else {
      assert (s + [e])[1..] == s[1..] + [e];
      DoomedEntriesAppend(s[1..], e, p);
    }
  }

  /** Deleting a doomed entry does not change what is kept. */
  lemma {:induction false} RemoveDoomedKeeps(s: seq<WeakRef>, x: WeakRef, p: Process)
    requires Doomed(x, p)
    ensures Kept(RemoveFirst(s, x), p) == Kept(s, p)
  {
    if s != [] && s[0] != x {
      RemoveDoomedKeeps(s[1..], x, p);
      var t := RemoveFirst(s, x);
      assert t == [s[0]] + RemoveFirst(s[1..], x);
      assert t[0] == s[0] && t[1..] == RemoveFirst(s[1..], x);
      assert Kept(t, p) == (if Doomed(s[0], p) then [] else [s[0]]) + Kept(t[1..], p);
    }
  }

  /** Deleting the first doomed entry takes it off the front of the doomed ones. */
  lemma {:induction false} RemoveFirstDoomed(s: seq<WeakRef>, p: Process)
    requires DoomedEntries(s, p) != []
    ensures DoomedEntries(RemoveFirst(s, DoomedEntries(s, p)[0]), p) == DoomedEntries(s, p)[1..]
  {
    var x := DoomedEntries(s, p)[0];
    if !Doomed(s[0], p) {
      RemoveFirstDoomed(s[1..], p);
      assert RemoveFirst(s, x) == [s[0]] + RemoveFirst(s[1..], x);
      assert ([s[0]] + RemoveFirst(s[1..], x))[1..] == RemoveFirst(s[1..], x);
    }
  }

  /** With nothing doomed, everything is kept. */
  lemma {:induction false} NothingDoomed(s: seq<WeakRef>, p: Process)
    requires DoomedEntries(s, p) == []
    ensures Kept(s, p) == s
  {
    if s != [] {
      NothingDoomed(s[1..], p);
    }
  }

  /** A second `remove(p)` deletes nothing more. */
  lemma {:induction false} KeptIdempotent(s: seq<WeakRef>, p: Process)
    ensures Kept(Kept(s, p), p) == Kept(s, p)
  {
    if s != [] {
      KeptIdempotent(s[1..], p);
      if Doomed(s[0], p) {
        assert Kept(s, p) == Kept(s[1..], p);
      } else {
        var k := [s[0]] + Kept(s[1..], p);
        assert Kept(s, p) == k;
        assert k[0] == s[0] && k[1..] == Kept(s[1..], p);
      }
    }
  }

  /** What the referent's collection does to every weak reference to it. */
  function Collected(s: seq<WeakRef>, p: Process): (r: seq<WeakRef>)
    ensures |r| == |s|
    ensures forall i :: 0 <= i < |s| ==> r[i].target == s[i].target
    ensures forall i :: 0 <= i < |s| ==> r[i].live == (s[i].live && s[i].target != p)
  {
    seq(|s|, i requires 0 <= i < |s| => if s[i].target == p then WeakRef(p, false) else s[i])
  }

  // ===========================================================================
  // The activity view

  /** A call on the activity view (`set_idle`, `set_busy(text, no_movie)`). */
  datatype ViewCall = SetIdle | SetBusy(text: string, noMovie: bool)

  /** `"%d %s" % (n, "processes running.")`. */
  function CountMessage(n: nat): string
  {
    NatToDecimal(n) + " processes running."
  }

  /** The count message's first word is the count. */
  lemma CountMessageNamesCount(n: nat)
    ensures ParseInt(Split(CountMessage(n), ' ')[0]) == Some(n)
  {
    var digits := NatToDecimal(n);
    assert !IsDigit(' ');
    assert ' ' !in digits;
    assert CountMessage(n) == digits + [' '] + "processes running.";
    SplitAtFirstSeparator(digits, "processes running.", ' ');
    ParseNatToDecimal(n);
  }

  /**
   * `update_view`: idle with no process, the one process's text with one, a
   * count message with more.
   */
  function ViewFor(count: nat, text: string, newText: string): (call: ViewCall)
    ensures count == 0 <==> call == SetIdle
    ensures count == 1 ==> call == SetBusy(text + newText, false)
    ensures count > 1 ==> call.SetBusy? && ParseInt(Split(call.text, ' ')[0]) == Some(count)
  {
    if count == 0 then SetIdle
    else if count == 1 then SetBusy(text + newText, false)
    else CountMessageNamesCount(count); SetBusy(CountMessage(count), false)
  }

  /**
   * `FCVisibleProcessContainer` (with the `FCProcessContainer` it extends):
   * non-owning references to the running processes and the activity view
   * they drive.
   */
  class ProcessContainer {
    var procs: seq<WeakRef>
    var textToDisplay: string
    var newText: string
    var viewLog: seq<ViewCall>

    constructor ()
      ensures procs == [] && textToDisplay == "" && newText == " " && viewLog == []
    {
      procs := [];
      textToDisplay := "";
      newText := " ";
      viewLog := [];
    }

    /** `add`: appends one non-owning reference. */
    method Add(p: Process)
      modifies this`procs
      ensures procs == old(procs) + [WeakRef(p, true)]
    {
      procs := procs + [WeakRef(p, true)];
    }

    /**
     * `new`: a fresh active process, wired to this container's `on_done`,
     * registered once, then announced. The announcement reads the first
     * entry; if that one's referent is gone the source raises, here `raised`.
     */
    method New(descr: string) returns (p: Process, raised: bool)
      modifies this`procs, this`textToDisplay, this`newText, this`viewLog
      ensures fresh(p) && p.Valid()
      ensures p.descr == descr && p.status == "Active" && p.callbacks == [ContainerOnDone(this)]
      ensures procs == old(procs) + [WeakRef(p, true)] && newText == old(newText)
      ensures raised <==> !procs[0].live
      ensures raised ==> textToDisplay == old(textToDisplay) && viewLog == old(viewLog)
      ensures !raised ==>
        textToDisplay == procs[0].target.descr &&
        viewLog == old(viewLog) + [ViewFor(|procs|, textToDisplay, newText)]
    {
      p := new Process(descr);
      p.Connect(ContainerOnDone(this));
      Add(p);
      raised := OnChange();
    }

    /** `on_change`: show the first process's description and refresh the view. */
    method OnChange() returns (raised: bool)
      requires |procs| > 0
      modifies this`textToDisplay, this`newText, this`viewLog
      ensures newText == old(newText)
      ensures raised <==> !procs[0].live
      ensures raised ==> textToDisplay == old(textToDisplay) && viewLog == old(viewLog)
      ensures !raised ==>
        textToDisplay == procs[0].target.descr &&
        viewLog == old(viewLog) + [ViewFor(|procs|, textToDisplay, newText)]
    {
      if !procs[0].live {
        return true;
      }
      textToDisplay := procs[0].target.descr;
      UpdateView();
      raised := false;
    }

    /** `on_done`: forget the process (and any dead entry), then refresh the view. */
    method OnDone(p: Process)
      modifies this`procs, this`newText, this`viewLog
      ensures procs == Kept(old(procs), p)
      ensures viewLog == old(viewLog) + [ViewFor(|procs|, textToDisplay, old(newText))]
      ensures newText == if procs == [] then "" else old(newText)
    {
      Remove(p);
      UpdateView();
    }

    /**
     * `remove`: first collect the entries whose referent is `p` or is gone,
     * then delete each; the others keep their order.
     */
    method Remove(p: Process)
      modifies this`procs
      ensures procs == Kept(old(procs), p)
      ensures forall e :: e in procs ==> e.live && e.target != p
    {
      var entries := procs;
      var toBeRemoved: seq<WeakRef> := [];
      for i := 0 to |entries|
        invariant procs == entries
        invariant toBeRemoved == DoomedEntries(entries[..i], p)
      {
        assert entries[..i + 1] == entries[..i] + [entries[i]];
        DoomedEntriesAppend(entries[..i], entries[i], p);
        if !entries[i].live || entries[i].target == p {
          toBeRemoved := toBeRemoved + [entries[i]];
        }
      }
      assert entries[..|entries|] == entries;
      assert toBeRemoved[0..] == toBeRemoved;

      ghost var original := procs;
      for j := 0 to |toBeRemoved|
        invariant Kept(procs, p) == Kept(original, p)
        invariant DoomedEntries(procs, p) == toBeRemoved[j..]
      {
        RemoveDoomedKeeps(procs, toBeRemoved[j], p);
        RemoveFirstDoomed(procs, p);
        assert toBeRemoved[j..][1..] == toBeRemoved[j + 1..];
        procs := RemoveFirst(procs, toBeRemoved[j]);
      }
      NothingDoomed(procs, p);
      KeptMembers(original, p);
    }

    /** The referent `p` is collected: every weak reference to it goes dead. */
    method ReferentCollected(p: Process)
      modifies this`procs
      ensures procs == Collected(old(procs), p)
    {
      procs := Collected(procs, p);
    }

    /** `update_view`: one view call chosen by the number of entries; idle also clears `new_text`. */
    method UpdateView()
      modifies this`newText, this`viewLog
      ensures viewLog == old(viewLog) + [ViewFor(|procs|, textToDisplay, old(newText))]
      ensures newText == if procs == [] then "" else old(newText)
    {
      if |procs| == 0 {
        newText := "";
        viewLog := viewLog + [SetIdle];
      } else if |procs| == 1 {
        viewLog := viewLog + [SetBusy(textToDisplay + newText, false)];
      } else {
        viewLog := viewLog + [SetBusy(CountMessage(|procs|), false)];
      }
    }

    /** `update_view_text`: keep the sub-status; push it only when exactly one entry exists. */
    method UpdateViewText(text: string)
      modifies this`newText, this`viewLog
      ensures newText == text
      ensures viewLog == old(viewLog) + (if |procs| == 1 then [SetBusy(textToDisplay + text, true)] else [])
    {
      newText := text;
      if |procs| == 1 {
        viewLog := viewLog + [SetBusy(textToDisplay + newText, true)];
      }
    }

    /**
     * `p.done()` for a process wired to this container: every observer is
     * called in order; this container's `on_done` removes `p`, so afterwards
     * no entry refers to it.
     */
    method ProcessDone(p: Process) returns (calls: seq<(Callback, Process)>)
      requires p.Valid()
      modifies this`procs, this`newText, this`viewLog
      ensures |calls| == |p.callbacks|
      ensures forall i :: 0 <= i < |calls| ==> calls[i] == (p.callbacks[i], p)
      ensures ContainerOnDone(this) in p.callbacks ==>
        procs == Kept(old(procs), p) &&
        viewLog == old(viewLog) + [ViewFor(|procs|, textToDisplay, old(newText))] &&
        newText == if procs == [] then "" else old(newText)
      ensures ContainerOnDone(this) in p.callbacks ==> forall e :: e in procs ==> e.target != p
      ensures ContainerOnDone(this) !in p.callbacks ==>
        procs == old(procs) && viewLog == old(viewLog) && newText == old(newText)
    {
      calls := p.Done();
      for i := 0 to |calls|
        invariant ContainerOnDone(this) in p.callbacks[..i] ==>
          procs == Kept(old(procs), p) &&
          viewLog == old(viewLog) + [ViewFor(|procs|, textToDisplay, old(newText))] &&
          newText == if procs == [] then "" else old(newText)
        invariant ContainerOnDone(this) !in p.callbacks[..i] ==>
          procs == old(procs) && viewLog == old(viewLog) && newText == old(newText)
      {
        assert p.callbacks[..i + 1] == p.callbacks[..i] + [p.callbacks[i]];
        if calls[i].0 == ContainerOnDone(this) {
          assert ContainerOnDone(this) !in p.callbacks[..i];
          OnDone(p);
        }
      }
      assert p.callbacks[..|calls|] == p.callbacks;
      KeptMembers(old(procs), p);
    }
  }
}
