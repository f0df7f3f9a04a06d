/**
 * The toast provider: a list of visible toasts, each shown by `toast` and
 * removed by its own three-second timer or by dismissal, and the `useToast`
 * hook that requires an enclosing provider.
 */
module ToastProvider {
  import opened Wrappers

  datatype ToastKind = SuccessToast | ErrorToast | InfoToast

  datatype Toast = Toast(id: string, message: string, kind: ToastKind)

  /** `prev.filter((t) => t.id !== id)`. */
  function RemoveById(toasts: seq<Toast>, id: string): (r: seq<Toast>)
    ensures |r| <= |toasts|
    ensures forall k :: 0 <= k < |r| ==> r[k].id != id && r[k] in toasts
    ensures forall t :: t in toasts && t.id != id ==> t in r
    ensures forall t :: multiset(r)[t] == if t.id == id then 0 else multiset(toasts)[t]
  {
    if toasts == [] then []
    else
      assert toasts == [toasts[0]] + toasts[1..];
      if toasts[0].id == id then RemoveById(toasts[1..], id)
      else [toasts[0]] + RemoveById(toasts[1..], id)
  }

  /** The filter distributes over concatenation, so the survivors keep their relative order. */
  lemma {:induction false} RemoveByIdAppend(s: seq<Toast>, t: seq<Toast>, id: string)
    ensures RemoveById(s + t, id) == RemoveById(s, id) + RemoveById(t, id)
  {
    if s == [] {
      assert s + t == t;
    } else {
      assert (s + t)[1..] == s[1..] + t;
      RemoveByIdAppend(s[1..], t, id);
    }
  }

  /** Removing an id no toast carries changes nothing. */
  lemma {:induction false} RemoveAbsentId(toasts: seq<Toast>, id: string)
    requires forall t :: t in toasts ==> t.id != id
    ensures RemoveById(toasts, id) == toasts
  {
    if toasts != [] {
      RemoveAbsentId(toasts[1..], id);
    }
  }

  /** What is left after the given timers fire, in order. */
  function AfterTimers(toasts: seq<Toast>, timers: seq<string>): seq<Toast>
    decreases |timers|
  {
    if timers == [] then toasts else AfterTimers(RemoveById(toasts, timers[0]), timers[1..])
  }

  /** Once every pending timer has fired, no toast is left. */
  lemma {:induction false} AllTimersClear(toasts: seq<Toast>, timers: seq<string>)
    requires forall t :: t in toasts ==> t.id in timers
    ensures AfterTimers(toasts, timers) == []
    decreases |timers|
  {
    if timers != [] {
      var rest := RemoveById(toasts, timers[0]);
      forall t | t in rest ensures t.id in timers[1..] {
        var k :| 0 <= k < |rest| && rest[k] == t;
        assert t in toasts && t.id != timers[0];
      }
      AllTimersClear(rest, timers[1..]);
    }
  }

  /** The delay before a toast's timer fires, in milliseconds. */
  const AutoDismissMs := 3000

  class Provider {
    var toasts: seq<Toast>
    /** The ids of the scheduled removal timers, oldest first. */
    var timers: seq<string>

    /** Every visible toast still has a removal timer pending. */
    ghost predicate Valid()
      reads this
    {
      forall t :: t in toasts ==> t.id in timers
    }

    constructor ()
      ensures Valid() && toasts == [] && timers == []
    {
      toasts, timers := [], [];
    }

    /**
     * `toast(message, type = "success")`; `id` is the random identifier
     * the source draws. The toast goes last and its timer is scheduled.
     */
    method Show(message: string, id: string, kind: ToastKind := SuccessToast)
      requires Valid()
      modifies this
      ensures Valid()
      ensures toasts == old(toasts) + [Toast(id, message, kind)]
      ensures timers == old(timers) + [id]
    {
      toasts := toasts + [Toast(id, message, kind)];
      timers := timers + [id];
    }

    /** `removeToast(id)`, as the dismiss button calls it: the timer stays scheduled. */
    method Dismiss(id: string)
      requires Valid()
      modifies this`toasts
      ensures Valid()
      ensures toasts == RemoveById(old(toasts), id)
    {
      toasts := RemoveById(toasts, id);
    }

    /**
     * The oldest timer fires and removes every toast with its id; when two
     * toasts drew the same random id, both go.
     */
    method FireTimer()
      requires Valid() && timers != []
      modifies this
      ensures Valid()
      ensures toasts == RemoveById(old(toasts), old(timers)[0])
      ensures timers == old(timers)[1..]
    {
      var id := timers[0];
      toasts := RemoveById(toasts, id);
      timers := timers[1..];
      forall t | t in toasts ensures t.id in timers {
        assert t in old(toasts) && t.id != id;
      }
    }
  }

  const OutsideProviderMessage := "useToast must be used within a ToastProvider"

  /** `useToast`: the context when inside a provider, otherwise the hook throws. */
  function UseToast<C>(context: Option<C>): (r: Result<C, string>)
    ensures r.Success? <==> context.Some?
    ensures r.Success? ==> r.value == context.value
    ensures r.Failure? ==> r.error == OutsideProviderMessage
  {
    match context
    case Some(c) => Success(c)
    case None => Failure(OutsideProviderMessage)
  }
}
