// Waiting until a recorded object is gone, or is still itself, for a whole observation window
// (e2e/pkg/framework/llv_identity.go; the sample count is in
// e2e/pkg/framework/module_lifecycle.go). The reads made before the deadline are a sequence.
module IdentityWait {

  datatype Read = Failed | NotFound | Found(uid: string)

  datatype State = Gone | Same | Reincarnated

  /** The index of the deciding read; a time-out when the deadline comes first. */
  datatype Outcome = Held(at: nat) | Replaced(at: nat, uid: string) | TimedOut

  function Classify(uid: string, found: bool, observed: string): State {
    if !found then Gone else if observed == uid then Same else Reincarnated
  }

  /** What a read that did not fail says about the recorded object. */
  function StateOf(uid: string, r: Read): State
    requires !r.Failed?
  {
    if r.NotFound? then Classify(uid, false, "") else Classify(uid, true, r.uid)
  }

  // ---------------------------------------------------------------------------
  // How many reads span a window
  // ---------------------------------------------------------------------------

  function StableSamples(window: int, poll: int): (n: int)
    ensures n >= 1
  {
    if window <= 0 || poll <= 0 then 1 else (window + poll - 1) / poll + 1
  }

  /** The reads span the window, and one read fewer would not; with nothing to span, one read is enough. */
  lemma SamplesSpanWindow(window: int, poll: int)
    requires poll > 0
    ensures (StableSamples(window, poll) - 1) * poll >= window
    ensures StableSamples(window, poll) == 1 || window > (StableSamples(window, poll) - 2) * poll
    ensures StableSamples(window, poll) == 1 <==> window <= 0
  {
    if window > 0 {
      var q := (window + poll - 1) / poll;
      var r := (window + poll - 1) % poll;
      assert window + poll - 1 == q * poll + r;
      assert (q - 1) * poll == q * poll - poll;
      assert q >= 1;
    }
  }

  // ---------------------------------------------------------------------------
  // What the wait promises
  // ---------------------------------------------------------------------------

  datatype Wait = Wait(uid: string, want: State, required: nat)

  predicate Accepts(w: Wait, r: Read) { !r.Failed? && StateOf(w.uid, r) == w.want }

  /** Which reads show the awaited state: no such object, the recorded uid, another uid; never a failed read. */
  lemma AcceptsIff(w: Wait, r: Read)
    ensures w.want == Gone ==> (Accepts(w, r) <==> r == NotFound)
    ensures w.want == Same ==> (Accepts(w, r) <==> r == Found(w.uid))
    ensures w.want == Reincarnated ==> (Accepts(w, r) <==> r.Found? && r.uid != w.uid)
  {
  }

  /** The last `required` reads up to and including `k` all showed the wanted state. */
  ghost predicate HeldAt(w: Wait, seen: seq<Read>, k: nat)
    requires k < |seen|
  {
    k + 1 >= w.required && forall j :: 0 <= j <= k && j > k - w.required ==> Accepts(w, seen[j])
  }

  /** Read `k` showed a namesake with another uid, which no awaited state can follow. */
  predicate ReplacedAt(w: Wait, seen: seq<Read>, k: nat)
    requires k < |seen|
  {
    !seen[k].Failed? && StateOf(w.uid, seen[k]) == Reincarnated && w.want != Reincarnated
  }

  lemma ReplacedIff(w: Wait, seen: seq<Read>, k: nat)
    requires k < |seen|
    ensures ReplacedAt(w, seen, k) <==> w.want != Reincarnated && seen[k].Found? && seen[k].uid != w.uid
  {
  }

  ghost predicate Undecided(w: Wait, seen: seq<Read>, n: nat)
    requires n <= |seen|
  {
    forall k :: 0 <= k < n ==> !HeldAt(w, seen, k) && !ReplacedAt(w, seen, k)
  }

  /** The outcome is that of the first read that decides, if any. */
  ghost predicate Promised(w: Wait, seen: seq<Read>, o: Outcome) {
    match o
    case Held(k) => k < |seen| && HeldAt(w, seen, k) && !ReplacedAt(w, seen, k) && Undecided(w, seen, k)
    case Replaced(k, uid) => k < |seen| && ReplacedAt(w, seen, k) && seen[k] == Found(uid) && Undecided(w, seen, k)
    case TimedOut => Undecided(w, seen, |seen|)
  }

  /** A replaced object cannot be the wanted state, so no read decides both ways. */
  lemma DecidesOneWay(w: Wait, seen: seq<Read>, k: nat)
    requires k < |seen| && w.required >= 1
    ensures !(HeldAt(w, seen, k) && ReplacedAt(w, seen, k))
  {
    if HeldAt(w, seen, k) {
      assert Accepts(w, seen[k]);
    }
  }

  /** The promise leaves one outcome only. */
  lemma PromisedOnce(w: Wait, seen: seq<Read>, o: Outcome, o': Outcome)
    requires w.required >= 1 && Promised(w, seen, o) && Promised(w, seen, o')
    ensures o == o'
  {
    if !o.TimedOut? && !o'.TimedOut? {
      DecidesOneWay(w, seen, o.at);
      assert o.at == o'.at;
    }
  }

  /** Reads behind the deciding one change nothing. */
  lemma DecisionIsFinal(w: Wait, seen: seq<Read>, more: seq<Read>, o: Outcome)
    requires Promised(w, seen, o) && !o.TimedOut?
    ensures Promised(w, seen + more, o)
  {
    assert forall k :: 0 <= k < |seen| ==> (seen + more)[k] == seen[k];
    forall k | 0 <= k < |seen|
      ensures HeldAt(w, seen + more, k) <==> HeldAt(w, seen, k)
      ensures ReplacedAt(w, seen + more, k) <==> ReplacedAt(w, seen, k)
    {
      SameReads(w, seen, seen + more, k);
    }
  }

  lemma SameReads(w: Wait, seen: seq<Read>, seen': seq<Read>, k: nat)
    requires k < |seen| <= |seen'| && forall j :: 0 <= j < |seen| ==> seen'[j] == seen[j]
    ensures HeldAt(w, seen', k) <==> HeldAt(w, seen, k)
    ensures ReplacedAt(w, seen', k) <==> ReplacedAt(w, seen, k)
  {
    hide StateOf;
    assert forall j :: 0 <= j <= k ==> (Accepts(w, seen'[j]) <==> Accepts(w, seen[j]));
  }

  /** The last `accepted` of the first `n` reads, and no more, showed the wanted state. */
  ghost predicate Counted(w: Wait, seen: seq<Read>, n: nat, accepted: nat)
    requires n <= |seen|
  {
    && accepted <= n
    && (forall j :: n - accepted <= j < n ==> Accepts(w, seen[j]))
    && (accepted < n ==> !Accepts(w, seen[n - accepted - 1]))
  }

  lemma CountedHolds(w: Wait, seen: seq<Read>, k: nat, accepted: nat)
    requires k < |seen| && w.required >= 1 && Counted(w, seen, k + 1, accepted)
    ensures HeldAt(w, seen, k) <==> accepted >= w.required
  {
    if accepted < w.required && k + 1 >= w.required {
      assert !Accepts(w, seen[k - accepted]);
    }
  }

  method AwaitIdentityState(uid: string, want: State, window: int, poll: int, seen: seq<Read>)
    returns (o: Outcome)
    ensures Promised(Wait(uid, want, StableSamples(window, poll)), seen, o)
    ensures o.Held? ==> StableSamples(window, poll) <= o.at + 1 <= |seen|
    ensures o.Held? && want == Gone ==>
              forall j :: o.at - StableSamples(window, poll) < j <= o.at ==> seen[j] == NotFound
    ensures o.Held? && want == Same ==>
              forall j :: o.at - StableSamples(window, poll) < j <= o.at ==> seen[j] == Found(uid)
    ensures o.Replaced? ==> want != Reincarnated && o.at < |seen| && seen[o.at] == Found(o.uid) && o.uid != uid
  {
    hide StateOf, HeldAt;
    var required := StableSamples(window, poll);
    ghost var w := Wait(uid, want, required);
    var accepted := 0;
    for i := 0 to |seen|
      invariant accepted < required && Counted(w, seen, i, accepted) && Undecided(w, seen, i)
    {
      var read := seen[i];
      if read.Failed? {
        accepted := 0;
      } else {
        var state := StateOf(uid, read);
        if state == Reincarnated && want != Reincarnated {
          ReplacedIff(w, seen, i);
          return Replaced(i, read.uid);
        } else if state == want {
          accepted := accepted + 1;
          CountedHolds(w, seen, i, accepted);
          if accepted >= required {
            forall j | i - required < j <= i
              ensures want == Gone ==> seen[j] == NotFound
              ensures want == Same ==> seen[j] == Found(uid)
            {
              AcceptsIff(w, seen[j]);
            }
            return Held(i);
          }
        } else {
          accepted := 0;
        }
      }
      CountedHolds(w, seen, i, accepted);
    }
    return TimedOut;
  }
}
