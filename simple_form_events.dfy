/** What happens in a `SimpleForm` after construction, on values: a field's
    change is emitted on its `afterChange` channel, and every subscription
    `observeSelect` made there writes the value into its entry of a
    dependent select's descriptor, then reloads that select's options (a
    truthy value) or empties them (a falsy one). */
module SimpleFormEvents {
  import opened Js
  import opened Dict
  import Entries = Dict
  import opened Resolver
  import opened SimpleForm

  /** Dictionary `which` of the data source of slot `t` holds entry `key`:
      what a subscription needs to write into. */
  predicate HasDict(adds: seq<AdditionState>, t: nat, which: Which)
  {
    t < |adds| && Observable(adds[t].dataFrom, which)
  }

  /** The other dictionary of a descriptor. */
  function Other(which: Which): Which
  {
    if which == Query then Param else Query
  }

  /** `params[key] = value` on dictionary `which` of descriptor `d`. */
  function WriteParam(d: DataFrom, which: Which, key: string, value: Value): (r: DataFrom)
    requires d.Descriptor? && DictOf(d, which).Some?
    ensures r.Descriptor? && r.url == d.url && r.from == d.from && r.parse == d.parse
    ensures DictOf(r, which) == Some(Assign(DictOf(d, which).value, key, value))
    ensures DictOf(r, Other(which)) == DictOf(d, Other(which))
  {
    if which == Query then d.(query := Some(Assign(d.query.value, key, value)))
    else d.(param := Some(Assign(d.param.value, key, value)))
  }

  /** What subscription `l` does with an emitted `value`: the value is
      written into its entry; then a truthy value reloads the select's
      options with the updated descriptor, and a falsy one sets its `data`
      to an empty list (no request, no re-render). */
  function Notified(adds: seq<AdditionState>, reqs: seq<Request>, l: Listener, value: Value)
    : (r: (seq<AdditionState>, seq<Request>))
    requires HasDict(adds, l.target, l.which)
    ensures |r.0| == |adds|
    ensures forall t, w :: HasDict(adds, t, w) ==> HasDict(r.0, t, w)
  {
    var a := adds[l.target];
    var d := WriteParam(a.dataFrom.value, l.which, l.key, value);
    if Truthy(value) then (adds[l.target := a.(dataFrom := Some(d))], reqs + LoadRequests(l.target, d))
    else (adds[l.target := a.(dataFrom := Some(d), data := Arr([]))], reqs)
  }

  /** An emission of `value` passed to subscriptions `ls`, in the order
      they were made. */
  function Notify(adds: seq<AdditionState>, reqs: seq<Request>, ls: seq<Listener>, value: Value)
    : (r: (seq<AdditionState>, seq<Request>))
    requires forall l :: l in ls ==> HasDict(adds, l.target, l.which)
    ensures |r.0| == |adds|
    ensures forall t, w :: HasDict(adds, t, w) ==> HasDict(r.0, t, w)
    decreases |ls|
  {
    if ls == [] then (adds, reqs)
    else
      var r1 := Notified(adds, reqs, ls[0], value);
      Notify(r1.0, r1.1, ls[1..], value)
  }

  /** The slots subscriptions `ls` write into. */
  function Targets(ls: seq<Listener>): set<nat>
  {
    set l | l in ls :: l.target
  }

  /** The entry `key` of dictionary `w` of slot `t` holds `value`. */
  predicate Holds(adds: seq<AdditionState>, t: nat, w: Which, key: string, value: Value)
  {
    HasDict(adds, t, w) && Entries.Get(DictOf(adds[t].dataFrom.value, w).value, key) == Some(value)
  }

  /** One subscription touches its own slot only, and requests at most a
      reload of it. */
  lemma NotifiedFrame(adds: seq<AdditionState>, reqs: seq<Request>, l: Listener, value: Value)
    requires HasDict(adds, l.target, l.which)
    ensures forall t :: 0 <= t < |adds| && t != l.target ==> Notified(adds, reqs, l, value).0[t] == adds[t]
    ensures var r := Notified(adds, reqs, l, value).1;
      |reqs| <= |r| <= |reqs| + 1 && r[..|reqs|] == reqs && forall i :: |reqs| <= i < |r| ==> r[i].target == l.target
    ensures var r := Notified(adds, reqs, l, value).1;
      !Truthy(value) ==> r == reqs
    ensures var r := Notified(adds, reqs, l, value).1;
      Truthy(value) && Loadable(adds[l.target].dataFrom.value) ==> |r| == |reqs| + 1
  {
    var d := WriteParam(adds[l.target].dataFrom.value, l.which, l.key, value);
    LoadRequestsCases(l.target, d);
  }

  /** An entry that already holds the emitted value still holds it after
      one more subscription has written into its own entry. */
  lemma NotifiedKeepsHolds(adds: seq<AdditionState>, reqs: seq<Request>, l: Listener, value: Value,
                           t: nat, w: Which, key: string)
    requires HasDict(adds, l.target, l.which)
    requires Holds(adds, t, w, key, value)
    ensures Holds(Notified(adds, reqs, l, value).0, t, w, key, value)
  {
    var d := adds[l.target].dataFrom.value;
    AssignFacts(DictOf(d, l.which).value, l.key, value);
    if t == l.target && w != l.which {
      assert w == Other(l.which);
    }
  }

  /** After an emission, every subscribed entry holds the emitted value. */
  lemma {:induction false} NotifyWritesValue(adds: seq<AdditionState>, reqs: seq<Request>, ls: seq<Listener>, value: Value)
    requires forall l :: l in ls ==> HasDict(adds, l.target, l.which)
    ensures forall l :: l in ls ==> Holds(Notify(adds, reqs, ls, value).0, l.target, l.which, l.key, value)
    decreases |ls|
  {
    if ls != [] {
      var r1 := Notified(adds, reqs, ls[0], value);
      NotifyWritesValue(r1.0, r1.1, ls[1..], value);
      AssignFacts(DictOf(adds[ls[0].target].dataFrom.value, ls[0].which).value, ls[0].key, value);
      assert Holds(r1.0, ls[0].target, ls[0].which, ls[0].key, value);
      NotifyKeepsHolds(r1.0, r1.1, ls[1..], value, ls[0].target, ls[0].which, ls[0].key);
      assert forall l :: l in ls ==> l == ls[0] || l in ls[1..];
    }
  }

  /** An entry that holds the emitted value keeps it through the whole
      emission. */
  lemma {:induction false} NotifyKeepsHolds(adds: seq<AdditionState>, reqs: seq<Request>, ls: seq<Listener>, value: Value,
                                            t: nat, w: Which, key: string)
    requires forall l :: l in ls ==> HasDict(adds, l.target, l.which)
    requires Holds(adds, t, w, key, value)
    ensures Holds(Notify(adds, reqs, ls, value).0, t, w, key, value)
    decreases |ls|
  {
    if ls != [] {
      var r1 := Notified(adds, reqs, ls[0], value);
      NotifiedKeepsHolds(adds, reqs, ls[0], value, t, w, key);
      NotifyKeepsHolds(r1.0, r1.1, ls[1..], value, t, w, key);
    }
  }

  /** A slot no subscription targets is left as it was. */
  lemma {:induction false} NotifyKeepsOthers(adds: seq<AdditionState>, reqs: seq<Request>, ls: seq<Listener>, value: Value)
    requires forall l :: l in ls ==> HasDict(adds, l.target, l.which)
    ensures forall t :: 0 <= t < |adds| && t !in Targets(ls) ==> Notify(adds, reqs, ls, value).0[t] == adds[t]
    decreases |ls|
  {
    if ls != [] {
      var r1 := Notified(adds, reqs, ls[0], value);
      NotifiedFrame(adds, reqs, ls[0], value);
      NotifyKeepsOthers(r1.0, r1.1, ls[1..], value);
      assert forall t :: t !in Targets(ls) ==> t != ls[0].target && t !in Targets(ls[1..]);
    }
  }

  /** The request log only grows, by at most one reload per subscription,
      each for a slot a subscription targets; a falsy value requests
      nothing. */
  lemma {:induction false} NotifyRequestLog(adds: seq<AdditionState>, reqs: seq<Request>, ls: seq<Listener>, value: Value)
    requires forall l :: l in ls ==> HasDict(adds, l.target, l.which)
    ensures var r := Notify(adds, reqs, ls, value).1;
      |reqs| <= |r| <= |reqs| + |ls| && r[..|reqs|] == reqs
      && forall i :: |reqs| <= i < |r| ==> r[i].target in Targets(ls)
    ensures !Truthy(value) ==> Notify(adds, reqs, ls, value).1 == reqs
    decreases |ls|
  {
    if ls != [] {
      var r1 := Notified(adds, reqs, ls[0], value);
      NotifiedFrame(adds, reqs, ls[0], value);
      NotifyRequestLog(r1.0, r1.1, ls[1..], value);
      var r := Notify(adds, reqs, ls, value).1;
      assert r[..|r1.1|][..|reqs|] == r[..|reqs|];
      assert forall i :: |reqs| <= i < |r| ==> r[i].target in Targets(ls) by {
        forall i | |reqs| <= i < |r|
          ensures r[i].target in Targets(ls)
        {
          if i < |r1.1| {
            assert r[i] == r1.1[i];
          } else {
            assert r[i].target in Targets(ls[1..]);
            var l :| l in ls[1..] && l.target == r[i].target;
            assert l in ls;
          }
        }
      }
    }
  }

  /** A falsy value leaves an emptied option list empty, and a truthy value
      leaves every option list as it was. */
  lemma {:induction false} NotifyKeepsData(adds: seq<AdditionState>, reqs: seq<Request>, ls: seq<Listener>, value: Value, t: nat)
    requires forall l :: l in ls ==> HasDict(adds, l.target, l.which)
    requires t < |adds|
    ensures !Truthy(value) && adds[t].data == Arr([]) ==> Notify(adds, reqs, ls, value).0[t].data == Arr([])
    ensures Truthy(value) ==> Notify(adds, reqs, ls, value).0[t].data == adds[t].data
    decreases |ls|
  {
    if ls != [] {
      var r1 := Notified(adds, reqs, ls[0], value);
      NotifiedFrame(adds, reqs, ls[0], value);
      NotifyKeepsData(r1.0, r1.1, ls[1..], value, t);
    }
  }

  /** A falsy value empties the options of every select a subscription
      targets; a truthy value changes no select's options (the reload
      replaces them when it emits). */
  lemma {:induction false} NotifyData(adds: seq<AdditionState>, reqs: seq<Request>, ls: seq<Listener>, value: Value)
    requires forall l :: l in ls ==> HasDict(adds, l.target, l.which)
    ensures !Truthy(value) ==> forall l :: l in ls ==> Notify(adds, reqs, ls, value).0[l.target].data == Arr([])
    ensures Truthy(value) ==> forall t :: 0 <= t < |adds| ==> Notify(adds, reqs, ls, value).0[t].data == adds[t].data
    decreases |ls|
  {
    if ls != [] {
      var r1 := Notified(adds, reqs, ls[0], value);
      NotifyData(r1.0, r1.1, ls[1..], value);
      NotifyKeepsData(r1.0, r1.1, ls[1..], value, ls[0].target);
      assert forall l :: l in ls ==> l == ls[0] || l in ls[1..];
      forall t | 0 <= t < |adds|
        ensures Truthy(value) ==> Notify(adds, reqs, ls, value).0[t].data == adds[t].data
      {
        NotifiedFrame(adds, reqs, ls[0], value);
        NotifyKeepsData(r1.0, r1.1, ls[1..], value, t);
      }
    }
  }

  /** A truthy value reloads once per subscription when every targeted
      select can load (it has a URL or a `from`). */
  lemma {:induction false} NotifyReloadsEach(adds: seq<AdditionState>, reqs: seq<Request>, ls: seq<Listener>, value: Value)
    requires forall l :: l in ls ==> HasDict(adds, l.target, l.which)
    requires Truthy(value)
    requires forall l :: l in ls ==> HasDict(adds, l.target, l.which) && Loadable(adds[l.target].dataFrom.value)
    ensures |Notify(adds, reqs, ls, value).1| == |reqs| + |ls|
    decreases |ls|
  {
    if ls != [] {
      var r1 := Notified(adds, reqs, ls[0], value);
      NotifiedFrame(adds, reqs, ls[0], value);
      forall l | l in ls[1..]
        ensures Loadable(r1.0[l.target].dataFrom.value)
      {
        assert l in ls;
      }
      NotifyReloadsEach(r1.0, r1.1, ls[1..], value);
    }
  }
}
