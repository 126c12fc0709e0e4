/**
  A handle as an object (bmpclient/concurrent_io.py, IOHandle): results, outstanding count and callbacks updated in
  place.
 */
module IOHandles {
  import opened Engine
  import opened EngineHandles
  import opened Finite
  import opened Wrappers

  /** The value an index holds after the assignments. */
  ghost function Latest(ws: seq<Write>, idx: nat): Option<bool>
    decreases |ws|
  {
    if ws == [] then None
    else if ws[|ws| - 1].idx == idx then Some(ws[|ws| - 1].ok) else Latest(ws[..|ws| - 1], idx)
  }

  class IOHandle {
    var results: seq<Option<bool>>
    var remaining: int
    var callbacks: seq<nat>
    ghost var view: Handle

    /** The fields show what the assignments and registrations so far amount to. */
    ghost predicate Valid()
      reads this
    {
      && remaining == view.remaining && multiset(callbacks) == view.waiting
      && (forall i :: 0 <= i < |results| ==> results[i] == Latest(view.written, i))
    }

    constructor (n: nat)
      ensures Valid() && |results| == n && view == NewHandle(n)
    {
      results, remaining, callbacks := seq(n, _ => None), n, [];
      view := NewHandle(n);
    }

    /** _set_many: record the pairs; when nothing is outstanding any more, hand out the callbacks to run. */
    method SetMany(pairs: seq<Write>) returns (calls: seq<nat>)
      requires Valid() && forall i :: 0 <= i < |pairs| ==> pairs[i].idx < |results|
      modifies this
      ensures Valid() && |results| == |old(results)|
      ensures view == old(view).SetMany(pairs)
      ensures multiset(calls) + old(view.calls) == view.calls
    {
      ghost var was := view.written;
      assert was + pairs[..0] == was;
      for k := 0 to |pairs|
        invariant |results| == |old(results)| && remaining == old(remaining) && callbacks == old(callbacks)
        invariant view == old(view)
        invariant forall i :: 0 <= i < |results| ==> results[i] == Latest(was + pairs[..k], i)
      {
        results := results[pairs[k].idx := Some(pairs[k].ok)];
        assert was + pairs[..k + 1] == (was + pairs[..k]) + [pairs[k]];
        assert (was + pairs[..k + 1])[..|was| + k] == was + pairs[..k];
      }
      assert pairs[..|pairs|] == pairs;
      remaining := remaining - |pairs|;
      view := view.SetMany(pairs);
      calls := if remaining > 0 then [] else callbacks;
    }

    /**
      add_done_callback: wait for completion, or run at once when complete; fn is the callback's registration number.
     */
    method AddDoneCallback(fn: nat) returns (now: bool)
      requires Valid() && fn == view.regs
      modifies this
      ensures Valid() && results == old(results) && remaining == old(remaining)
      ensures view == old(view).AddCallback()
      ensures view.toRun == old(view.toRun) + if now then multiset{fn} else multiset{}
    {
      if remaining > 0 {
        callbacks := callbacks + [fn];
        now := false;
      } else {
        now := true;
      }
      view := view.AddCallback();
    }
  }
}
