/**
 * The activity log of frontend/lib/activityTracker.ts: a newest-first list of at
 * most 20 activities kept as JSON under one `localStorage` key. The browser is
 * a parameter: either there is no `window` (server rendering), or there is a
 * storage slot, which may be absent, hold a parsable list or hold something
 * that does not parse as one. Storage may refuse `setItem` (a full quota, for
 * one) and, separately, `removeItem`; either throws and the code catches it.
 */
module ActivityTracker {
  import opened Wrappers
  import opened Sequences

  /** `MAX_ACTIVITIES` */
  const MaxActivities := 20

  datatype ActivityKind = Increment | Decrement | Reset

  /** One activity; `timestamp` is in milliseconds and survives the JSON round trip. */
  datatype Activity = Activity(id: string, kind: ActivityKind, amount: int, timestamp: int, txId: Option<string>)

  /** What `localStorage.getItem(STORAGE_KEY)` yields, as the loader sees it. */
  datatype Slot =
    | Absent                           // null, or the empty string
    | Stored(activities: seq<Activity>) // JSON text of a list of activities
    | Unreadable                       // text that `JSON.parse` or `.map` rejects

  /** `canSet`: `setItem` succeeds; `canRemove`: `removeItem` succeeds. */
  datatype Env = NoWindow | Browser(slot: Slot, canSet: bool, canRemove: bool)

  /** `list.slice(0, n)` for `n >= 0`. */
  function Take<T>(s: seq<T>, n: nat): (r: seq<T>)
    ensures |r| == (if |s| <= n then |s| else n)
    ensures r == s[..|r|]
  {
    if |s| <= n then s else s[..n]
  }

  /** `loadActivities()` */
  function Load(env: Env): seq<Activity> {
    if env.NoWindow? then []
    else
      match env.slot
      case Stored(activities) => activities
      case _ => []
  }

  /**
   * `saveActivity(...)` with the new activity already built (its random id and
   * its time are parameters of the caller): the new activity in front of what
   * loads, cut to 20, written back.
   */
  function Save(env: Env, a: Activity): Env {
    if env.NoWindow? || !env.canSet then env
    else env.(slot := Stored(Take([a] + Load(env), MaxActivities)))
  }

  /** `clearActivities()` */
  function Clear(env: Env): Env {
    if env.NoWindow? || !env.canRemove then env
    else env.(slot := Absent)
  }

  /** The activity `saveActivity(type, amount, txId)` builds, given the id and the time it draws. */
  function NewActivity(id: string, kind: ActivityKind, amount: int, now: int, txId: Option<string>): Activity {
    Activity(id, kind, amount, now, txId)
  }

  // ------------------------------------------------------------- properties

  /**
   * After a save that can write, the log is the new activity followed by the
   * newest activities of the old log, in order, and holds min(|old| + 1, 20) of them.
   */
  lemma SaveShape(env: Env, a: Activity)
    requires env.Browser? && env.canSet
    ensures var before, after := Load(env), Load(Save(env, a));
            && |after| == (if |before| + 1 <= MaxActivities then |before| + 1 else MaxActivities)
            && after[0] == a
            && after[1..] == before[..|after| - 1]
  {
    var before, after := Load(env), Load(Save(env, a));
    assert after == ([a] + before)[..|after|];
  }

  /**
   * `saveActivity(type, amount, txId)` puts an activity with exactly those
   * fields, the id drawn and the current time at the head of the log.
   */
  lemma SavedActivityFirst(env: Env, id: string, kind: ActivityKind, amount: int, now: int, txId: Option<string>)
    requires env.Browser? && env.canSet
    ensures var head := Load(Save(env, NewActivity(id, kind, amount, now, txId)))[0];
            && head.id == id && head.kind == kind && head.amount == amount
            && head.timestamp == now && head.txId == txId
  {
    SaveShape(env, NewActivity(id, kind, amount, now, txId));
  }

  /**
   * Without a window nothing is stored or removed, and the log loads empty; when
   * storage refuses `setItem`, a save changes nothing, and when it refuses
   * `removeItem`, a clear changes nothing.
   */
  lemma NoStorageNoChange(env: Env, a: Activity)
    ensures env.NoWindow? ==> Save(env, a) == env && Clear(env) == env && Load(env) == []
    ensures env.Browser? && !env.canSet ==> Save(env, a) == env
    ensures env.Browser? && !env.canRemove ==> Clear(env) == env
  {
  }

  /** A missing or unreadable slot loads as the empty log. */
  lemma UnreadableIsEmpty(canSet: bool, canRemove: bool)
    ensures Load(Browser(Absent, canSet, canRemove)) == []
    ensures Load(Browser(Unreadable, canSet, canRemove)) == []
  {
  }

  /** After clearing, the log loads empty; a second clear changes nothing. */
  lemma ClearEmpties(env: Env)
    requires env.Browser? && env.canRemove
    ensures Load(Clear(env)) == []
    ensures Clear(Clear(env)) == Clear(env)
  {
  }

  /** Saves `saved` one after the other, oldest first. */
  function SaveAll(env: Env, saved: seq<Activity>): Env
    decreases |saved|
  {
    if |saved| == 0 then env else Save(SaveAll(env, Init(saved)), Last(saved))
  }

  /** `s` newest first. */
  function Reverse<T>(s: seq<T>): (r: seq<T>)
    ensures |r| == |s|
    ensures forall i :: 0 <= i < |s| ==> r[i] == s[|s| - 1 - i]
  {
    if |s| == 0 then [] else [Last(s)] + Reverse(Init(s))
  }

  /** Cutting to `n` before or after putting one element in front comes to the same. */
  lemma TakeCons<T>(x: T, s: seq<T>, n: nat)
    ensures Take([x] + Take(s, n), n) == Take([x] + s, n)
  {
    var r, q := Take([x] + Take(s, n), n), Take([x] + s, n);
    assert |r| == |q|;
    forall i | 0 <= i < |r| ensures r[i] == q[i] {
      if 0 < i {
        assert r[i] == Take(s, n)[i - 1] == s[i - 1];
      }
    }
  }

  /**
   * Saving a list of activities into a log that accepts `setItem` leaves the newest of them
   * first, then the old log, cut to the 20 most recent.
   */
  lemma {:induction false} KeepsMostRecent(env: Env, saved: seq<Activity>)
    requires env.Browser? && env.canSet
    ensures SaveAll(env, saved).Browser? && SaveAll(env, saved).canSet
    ensures Load(SaveAll(env, saved)) == if |saved| == 0 then Load(env) else Take(Reverse(saved) + Load(env), MaxActivities)
    decreases |saved|
  {
    if 0 < |saved| {
      var init := Init(saved);
      KeepsMostRecent(env, init);
      var x := Last(saved);
      var rest := Reverse(init) + Load(env);
      assert Reverse(saved) + Load(env) == [x] + rest;
      if |init| == 0 {
        assert rest == Load(env);
        if MaxActivities < |Load(env)| {
          TakeCons(x, rest, MaxActivities);
        }
      } else {
        TakeCons(x, rest, MaxActivities);
      }
    }
  }

  /** Twenty-one saves into an empty log keep the last twenty, newest first: the first one is gone. */
  lemma TwentyOneSaves(saved: seq<Activity>, canRemove: bool)
    requires |saved| == MaxActivities + 1
    ensures Load(SaveAll(Browser(Absent, true, canRemove), saved)) == Reverse(saved[1..])
  {
    KeepsMostRecent(Browser(Absent, true, canRemove), saved);
    var r := Load(SaveAll(Browser(Absent, true, canRemove), saved));
    var newest := Reverse(saved);
    assert newest + [] == newest;
    assert r == newest[..MaxActivities];
    var tail := saved[1..];
    forall i | 0 <= i < MaxActivities ensures r[i] == Reverse(tail)[i] {
      assert r[i] == newest[i] == saved[MaxActivities - i];
      assert Reverse(tail)[i] == tail[MaxActivities - 1 - i];
    }
  }
}
