/** The diagnostic event log of sim and sim_v2: append-only, oldest entry
    evicted once more than MaxEvents entries are held. */
module Events {
  import opened Basics

  const MaxEvents: nat := 5000

  datatype EventType = Death | Attack | Kill | Birth | Merge

  /** An event; the formatted message text is not modelled. A missing target is 0. */
  datatype Event = Event(kind: EventType, tick: int, actorID: int, actorSex: Sex, targetID: int)

  /** The log after `addEvent`: the new event is always last, and exactly the
      oldest entry is dropped when the log already held more than MaxEvents. */
  function Appended(log: seq<Event>, e: Event): (r: seq<Event>)
    ensures |log| <= MaxEvents + 1 ==> |r| <= MaxEvents + 1
  {
    if |log| > MaxEvents then log[1..] + [e] else log + [e]
  }

  /** The shape of one append: `e` is last, preceded by the old log, or by the
      old log without its oldest entry when it held more than MaxEvents. */
  lemma AppendedShape(log: seq<Event>, e: Event)
    ensures var r := Appended(log, e);
      && |r| == (if |log| > MaxEvents then |log| else |log| + 1)
      && r[|r| - 1] == e
      && forall i :: 0 <= i < |r| - 1 ==> r[i] == (if |log| > MaxEvents then log[i + 1] else log[i])
  {
  }

  /** The log after appending the events `es` one by one. */
  function AppendAll(log: seq<Event>, es: seq<Event>): seq<Event>
    decreases |es|
  {
    if es == [] then log else Appended(AppendAll(log, es[..|es| - 1]), es[|es| - 1])
  }

  /** The cap is never exceeded, however many events are added. */
  lemma {:induction false} AppendAllBounded(log: seq<Event>, es: seq<Event>)
    requires |log| <= MaxEvents + 1
    ensures |AppendAll(log, es)| <= MaxEvents + 1
    decreases |es|
  {
    if es != [] {
      AppendAllBounded(log, es[..|es| - 1]);
    }
  }

  /** The log always ends with the most recent events, in order of arrival. */
  lemma {:induction false} AppendAllKeepsRecent(log: seq<Event>, es: seq<Event>)
    requires |es| <= MaxEvents + 1
    ensures |AppendAll(log, es)| >= |es|
    ensures forall i :: 0 <= i < |es| ==>
      AppendAll(log, es)[|AppendAll(log, es)| - |es| + i] == es[i]
    decreases |es|
  {
    if es != [] {
      var init, e := es[..|es| - 1], es[|es| - 1];
      AppendAllKeepsRecent(log, init);
      var r := AppendAll(log, init);
      var r' := Appended(r, e);
      AppendedShape(r, e);
      assert r' == AppendAll(log, es);
      forall i | 0 <= i < |es|
        ensures r'[|r'| - |es| + i] == es[i]
      {
        if i < |init| {
          assert es[i] == init[i];
          assert r[|r| - |init| + i] == init[i];
        }
      }
    }
  }
}
