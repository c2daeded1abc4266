/**
 * The toast notification queue of `ToastProvider`: a newest-first list of at most six toasts,
 * an id counter, and a map from toast id to its expiry timer.
 */
module Toasts {

  import opened Wrappers

  datatype ToastType = SuccessToast | ErrorToast | InfoToast

  /**
   * One key of the argument object of `show`: missing from the object, present with the value
   * `undefined`, or present with a value. The spread `...t` only overrides defaults for keys
   * that are present, even when their value is `undefined`.
   */
  datatype Key<T> = Missing | Undefined | Given(value: T)

  /** The argument of `show` (everything but `id`). */
  datatype ToastInput = ToastInput(title: string, description: Option<string>, kind: Key<ToastType>, duration: Key<int>)

  /** A toast as stored in the list. */
  datatype ToastItem = ToastItem(id: int, title: string, description: Option<string>, kind: Option<ToastType>, duration: Option<int>)

  const MaxToasts := 6
  const DefaultDuration := 3800

  /** `t`'s own value for a key, the default when the key is missing, `undefined` when it is present without a value. */
  function Spread<T>(k: Key<T>, default: T): Option<T> {
    match k
    case Missing => Some(default)
    case Undefined => None
    case Given(v) => Some(v)
  }

  /** `{ id, duration: 3800, type: "info", ...t }`. */
  function WithDefaults(id: int, t: ToastInput): (item: ToastItem)
    ensures item.id == id && item.title == t.title && item.description == t.description
    ensures t.duration.Missing? ==> item.duration == Some(DefaultDuration)
    ensures t.duration.Undefined? ==> item.duration == None
    ensures t.duration.Given? ==> item.duration == Some(t.duration.value)
    ensures t.kind.Missing? ==> item.kind == Some(InfoToast)
    ensures t.kind.Undefined? ==> item.kind == None
    ensures t.kind.Given? ==> item.kind == Some(t.kind.value)
  {
    ToastItem(id, t.title, t.description, Spread(t.kind, InfoToast), Spread(t.duration, DefaultDuration))
  }

  /** The argument `success`, `error` and `info` pass to `show`: every key is present. */
  function ShorthandInput(kind: ToastType, title: string, description: Option<string>, duration: Option<int>): ToastInput {
    ToastInput(title, description, Given(kind), if duration.Some? then Given(duration.value) else Undefined)
  }

  /** The shorthands always pass a `duration` key, so omitting it leaves the duration undefined, not 3800. */
  lemma ShorthandSkipsDefaultDuration(id: int, kind: ToastType, title: string, description: Option<string>)
    ensures WithDefaults(id, ShorthandInput(kind, title, description, None)).duration == None
    ensures WithDefaults(id, ShorthandInput(kind, title, description, None)).kind == Some(kind)
  {
  }

  /** `.slice(0, 6)`. */
  function Newest(ts: seq<ToastItem>): (r: seq<ToastItem>)
    ensures |r| <= MaxToasts
    ensures |ts| <= MaxToasts ==> r == ts
    ensures |ts| > MaxToasts ==> r == ts[..MaxToasts]
  {
    if |ts| <= MaxToasts then ts else ts[..MaxToasts]
  }

  /** `prev.filter(t => t.id !== id)`. */
  function WithoutId(ts: seq<ToastItem>, id: int): (r: seq<ToastItem>)
    ensures |r| <= |ts|
    ensures forall t :: t in r <==> t in ts && t.id != id
  {
    if ts == [] then []
    else (if ts[0].id != id then [ts[0]] else []) + WithoutId(ts[1..], id)
  }

  /** Removal keeps the survivors in order: it distributes over concatenation. */
  lemma {:induction false} WithoutIdAppend(a: seq<ToastItem>, b: seq<ToastItem>, id: int)
    ensures WithoutId(a + b, id) == WithoutId(a, id) + WithoutId(b, id)
  {
    if a == [] {
      assert a + b == b;
    } else {
      var ab := a + b;
      assert ab[0] == a[0] && ab[1..] == a[1..] + b;
      WithoutIdAppend(a[1..], b, id);
      var head := if a[0].id != id then [a[0]] else [];
      assert WithoutId(ab, id) == head + (WithoutId(a[1..], id) + WithoutId(b, id));
    }
  }

  /** An unknown id leaves the list unchanged. */
  lemma {:induction false} WithoutUnknownId(ts: seq<ToastItem>, id: int)
    requires forall i :: 0 <= i < |ts| ==> ts[i].id != id
    ensures WithoutId(ts, id) == ts
  {
    if ts != [] {
      WithoutUnknownId(ts[1..], id);
    }
  }

  /** Ids strictly decrease from the front (newest) to the back (oldest), so they are distinct. */
  predicate IdsDecreasing(ts: seq<ToastItem>) {
    forall i, j :: 0 <= i < j < |ts| ==> ts[i].id > ts[j].id
  }

  /** Removing toasts keeps the ids in decreasing order. */
  lemma {:induction false} WithoutIdKeepsOrder(ts: seq<ToastItem>, id: int)
    requires IdsDecreasing(ts)
    ensures IdsDecreasing(WithoutId(ts, id))
  {
    if ts != [] {
      WithoutIdKeepsOrder(ts[1..], id);
      var rest := WithoutId(ts[1..], id);
      assert forall t :: t in rest ==> t in ts[1..];
      assert forall t :: t in ts[1..] ==> t.id < ts[0].id;
    }
  }

  /** Prepending a toast newer than every toast present, then truncating, keeps the order. */
  lemma PrependKeepsOrder(item: ToastItem, ts: seq<ToastItem>)
    requires IdsDecreasing(ts)
    requires forall i :: 0 <= i < |ts| ==> ts[i].id < item.id
    ensures IdsDecreasing(Newest([item] + ts))
    ensures Newest([item] + ts)[0] == item
    ensures |ts| == MaxToasts ==> Newest([item] + ts) == [item] + ts[..MaxToasts - 1]
  {
  }

  class ToastProvider {
    /** `toasts`: newest first. */
    var toasts: seq<ToastItem>
    /** `idRef.current`: the id the next `show` assigns. */
    var nextId: int
    /** `timers.current`: toast id to the handle `setTimeout` returned. */
    var timers: map<int, int>

    ghost predicate Valid()
      reads this
    {
      && nextId >= 1
      && |toasts| <= MaxToasts
      && IdsDecreasing(toasts)
      && (forall i :: 0 <= i < |toasts| ==> 1 <= toasts[i].id < nextId)
      && (forall id :: id in timers ==> 1 <= id < nextId)
    }

    constructor ()
      ensures Valid()
      ensures toasts == [] && nextId == 1 && timers == map[]
    {
      toasts, nextId, timers := [], 1, map[];
    }

    /**
     * `show`: takes the next id, prepends the toast with its defaults, keeps the six newest and
     * registers the expiry timer (the handle `setTimeout` returned) under the id.
     */
    method Show(t: ToastInput, timer: int) returns (id: int)
      requires Valid()
      modifies this
      ensures Valid()
      ensures id == old(nextId) && nextId == old(nextId) + 1
      ensures toasts == Newest([WithDefaults(id, t)] + old(toasts))
      ensures timers == old(timers)[id := timer]
    {
      id := nextId;
      nextId := nextId + 1;
      PrependKeepsOrder(WithDefaults(id, t), toasts);
      toasts := Newest([WithDefaults(id, t)] + toasts);
      timers := timers[id := timer];
    }

    /** `remove`: drops the toasts with that id and clears a registered timer. */
    method Remove(id: int)
      requires Valid()
      modifies this
      ensures Valid()
      ensures toasts == WithoutId(old(toasts), id) && nextId == old(nextId)
      ensures timers == if id in old(timers) && old(timers)[id] != 0 then old(timers) - {id} else old(timers)
    {
      WithoutIdKeepsOrder(toasts, id);
      toasts := WithoutId(toasts, id);
      if id in timers && timers[id] != 0 {
        timers := timers - {id};
      }
    }

    /** `success(title, description, duration)`. */
    method Success(title: string, description: Option<string>, duration: Option<int>, timer: int) returns (id: int)
      requires Valid()
      modifies this
      ensures Valid()
      ensures id == old(nextId) && nextId == old(nextId) + 1
      ensures toasts == Newest([WithDefaults(id, ShorthandInput(SuccessToast, title, description, duration))] + old(toasts))
      ensures timers == old(timers)[id := timer]
    {
      id := Show(ShorthandInput(SuccessToast, title, description, duration), timer);
    }

    /** `error(title, description, duration)`. */
    method Error(title: string, description: Option<string>, duration: Option<int>, timer: int) returns (id: int)
      requires Valid()
      modifies this
      ensures Valid()
      ensures id == old(nextId) && nextId == old(nextId) + 1
      ensures toasts == Newest([WithDefaults(id, ShorthandInput(ErrorToast, title, description, duration))] + old(toasts))
      ensures timers == old(timers)[id := timer]
    {
      id := Show(ShorthandInput(ErrorToast, title, description, duration), timer);
    }

    /** `info(title, description, duration)`. */
    method Info(title: string, description: Option<string>, duration: Option<int>, timer: int) returns (id: int)
      requires Valid()
      modifies this
      ensures Valid()
      ensures id == old(nextId) && nextId == old(nextId) + 1
      ensures toasts == Newest([WithDefaults(id, ShorthandInput(InfoToast, title, description, duration))] + old(toasts))
      ensures timers == old(timers)[id := timer]
    {
      id := Show(ShorthandInput(InfoToast, title, description, duration), timer);
    }
  }
}
