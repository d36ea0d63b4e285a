/** The dependent-data machinery both form engines share: the `query` and
    `param` dictionaries of a data-source descriptor, `#field` markers and the
    subscriptions they create, and the substitution of `:key` tokens into a
    URL. */
module Resolver {
  import opened Js
  import opened Text
  import opened Dict

  /** A `query` or `param` dictionary of a descriptor. */
  type Params = Dict<Value>

  /** Which dictionary of the descriptor an entry belongs to. */
  datatype Which = Query | Param

  /** A subscription on a field's `afterChange` channel: an emission is written
      into entry `key` of dictionary `which` of select `target`'s descriptor. */
  datatype Listener = Listener(target: nat, which: Which, key: string)

  /** How `path[0] === '#'` reads one entry's value: a string starting with `#`
      names the field it depends on; `undefined` and `null` make `path[0]`
      throw, and so does an array whose first element is `'#'` (it passes the
      test and has no `substr`); every other value is a plain value. */
  datatype PathKind = Marker(field: string) | Plain | PathThrows

  function Classify(v: Value): (k: PathKind)
    ensures k.Marker? <==> v.Str? && |v.s| > 0 && v.s[0] == '#'
    ensures k.Marker? ==> k.field == v.s[1..]
  {
    match v
    case Str(s) => if |s| > 0 && s[0] == '#' then Marker(s[1..]) else Plain
    case Undefined => PathThrows
    case Null => PathThrows
    case Arr(items) => if |items| > 0 && items[0] == Str("#") then PathThrows else Plain
    case _ => Plain
  }

  /** What a marker finds among the compiled fields: nothing, a field with an
      `afterChange` channel, or a group (which has none, so subscribing
      throws). */
  datatype Channel = NoField | Emits(id: nat) | NoChannel

  /** The scan of one dictionary by `observeSelect`: the subscriptions made,
      in order, whether the eager load is still due, and whether the scan ran
      to its end (`false` once an entry throws). */
  datatype Scan = Scan(subscriptions: seq<(nat, string)>, load: bool, ok: bool)

  /** The scan of the first `n` entries of `params`. */
  function ScanParams(params: Params, n: nat, channel: string -> Channel): (s: Scan)
    requires n <= |params|
    ensures s.ok ==> (s.load <==> forall i :: 0 <= i < n ==> !Classify(params[i].1).Marker?)
    ensures s.ok <==> forall i :: 0 <= i < n ==>
      Classify(params[i].1) != PathThrows
      && (Classify(params[i].1).Marker? ==> channel(Classify(params[i].1).field) != NoChannel)
    ensures |s.subscriptions| <= n
  {
    if n == 0 then Scan([], true, true)
    else
      var prev := ScanParams(params, n - 1, channel);
      if !prev.ok then prev
      else
        var (key, path) := params[n - 1];
        match Classify(path)
        case PathThrows => Scan(prev.subscriptions, prev.load, false)
        case Plain => prev
        case Marker(field) =>
          match channel(field)
          case NoField => Scan(prev.subscriptions, false, true)
          case NoChannel => Scan(prev.subscriptions, prev.load, false)
          case Emits(id) => Scan(prev.subscriptions + [(id, key)], false, true)
  }

  /** The subscription one entry asks for: its channel and key when its
      value is a marker naming a field with a channel, nothing otherwise. */
  function EntrySub(entry: (string, Value), channel: string -> Channel): (r: seq<(nat, string)>)
    ensures |r| <= 1
  {
    var k := Classify(entry.1);
    if k.Marker? && channel(k.field).Emits? then [(channel(k.field).id, entry.0)] else []
  }

  /** The subscriptions the entries ask for, in entry order. */
  function MarkerSubs(entries: Params, channel: string -> Channel): seq<(nat, string)>
  {
    if entries == [] then [] else EntrySub(entries[0], channel) + MarkerSubs(entries[1..], channel)
  }

  lemma {:induction false} MarkerSubsSnoc(entries: Params, last: (string, Value), channel: string -> Channel)
    ensures MarkerSubs(entries + [last], channel) == MarkerSubs(entries, channel) + EntrySub(last, channel)
  {
    if entries == [] {
      assert [] + [last] == [last];
      assert [last][1..] == [];
    } else {
      assert (entries + [last])[0] == entries[0];
      assert (entries + [last])[1..] == entries[1..] + [last];
      MarkerSubsSnoc(entries[1..], last, channel);
    }
  }

  /** A scan that runs to its end subscribes exactly the markers that name a
      field with a channel, each on that channel under its own key, in entry
      order. */
  lemma {:induction false} ScanSubscribesPerMarker(params: Params, n: nat, channel: string -> Channel)
    requires n <= |params|
    requires ScanParams(params, n, channel).ok
    ensures ScanParams(params, n, channel).subscriptions == MarkerSubs(params[..n], channel)
  {
    if n > 0 {
      ScanSubscribesPerMarker(params, n - 1, channel);
      assert params[..n] == params[..n - 1] + [params[n - 1]];
      MarkerSubsSnoc(params[..n - 1], params[n - 1], channel);
    } else {
      assert params[..0] == [];
    }
  }

  /** Once an entry throws, the scan stays where it stopped. */
  lemma {:induction false} ScanStops(params: Params, i: nat, n: nat, channel: string -> Channel)
    requires i <= n <= |params|
    requires !ScanParams(params, i, channel).ok
    ensures ScanParams(params, n, channel) == ScanParams(params, i, channel)
  {
    if n > i {
      ScanStops(params, i, n - 1, channel);
    }
  }

  /** Where a select's options come from: a GET request to `url` with the
      `query` dictionary as its parameters, a call of the descriptor's own
      `from` function (identified by `from`) with the query and, when there is
      one, the URL (`withUrl`), or an observable given directly. */
  datatype Source =
    | Get(url: string, query: Option<Params>)
    | Custom(from: nat, query: Option<Params>, withUrl: Option<string>)
    | Watch(stream: nat)

  /** A subscription made to load the options of select `target`: each
      emission of `source` is passed through the user's `parse` function
      (identified by `parse`, when given) and becomes the select's `data`;
      with `refresh`, the component re-renders. */
  datatype Request = Request(target: nat, source: Source, parse: Option<nat>, refresh: bool)

  /** The listener lists after adding one listener per subscription. */
  function AddListeners(ls: seq<seq<Listener>>, subs: seq<(nat, string)>, target: nat, which: Which): (r: seq<seq<Listener>>)
    ensures |r| == |ls|
    ensures forall k :: 0 <= k < |ls| ==> |r[k]| >= |ls[k]| && r[k][..|ls[k]|] == ls[k]
    ensures forall k, l :: 0 <= k < |ls| && l in r[k] ==> l in ls[k] || (l.target == target && l.which == which)
  {
    if subs == [] then ls
    else
      var prev := AddListeners(ls, subs[..|subs| - 1], target, which);
      var (id, key) := subs[|subs| - 1];
      if id < |prev| then prev[id := prev[id] + [Listener(target, which, key)]] else prev
  }

  /** One more subscription adds one listener to its channel. */
  lemma AddListenersStep(ls: seq<seq<Listener>>, subs: seq<(nat, string)>, id: nat, key: string, target: nat, which: Which)
    ensures AddListeners(ls, subs + [(id, key)], target, which) ==
      var prev := AddListeners(ls, subs, target, which);
      if id < |prev| then prev[id := prev[id] + [Listener(target, which, key)]] else prev
  {
    assert (subs + [(id, key)])[..|subs|] == subs;
  }

  /** `url.replace(':' + key, String(param[key]))` for every key of `param`,
      in order. */
  function Substituted(url: string, param: Params): string
  {
    if param == [] then url
    else
      var (key, value) := param[|param| - 1];
      ReplaceFirst(Substituted(url, param[..|param| - 1]), ":" + key, ToString(value))
  }

  /** The substitution loop of `loadSelectData`. */
  method SubstituteParams(url: string, param: Params) returns (r: string)
    ensures r == Substituted(url, param)
  {
    r := url;
    for i := 0 to |param|
      invariant r == Substituted(url, param[..i])
    {
      assert param[..i + 1][..i] == param[..i];
      r := ReplaceFirst(r, ":" + param[i].0, ToString(param[i].1));
    }
    assert param[..|param|] == param;
  }

  /** A token that occurs twice keeps its second occurrence: `replace` with a
      string pattern only rewrites the first. */
  lemma SecondOccurrenceSurvives(url: string, key: string, value: Value, j: int)
    requires IndexOf(url, ":" + key) >= 0
    requires IndexOf(url, ":" + key) + |key| + 1 <= j && OccursAt(url, ":" + key, j)
    ensures OccursAt(Substituted(url, [(key, value)]), ":" + key, j - |key| - 1 + |ToString(value)|)
  {
    assert [(key, value)][..0] == [];
    ReplaceFirstKeepsLaterOccurrences(url, ":" + key, ToString(value), j);
  }
}
