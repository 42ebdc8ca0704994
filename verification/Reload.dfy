// Reloading a filter module while its instances live on: main.cpp's rfx_module and rfx_instance.

module Reload {
  import opened Options
  import opened SavedState

  // What a loaded module offers: the state of a new filter, and how a filter saves and loads.
  datatype FilterApi<!S> = FilterApi(initial: S, save: S -> seq<bv8>, load: (S, seq<bv8>) -> S)

  class Filter<S> {
    const api: FilterApi<S>
    ghost const owner: Instance<S>
    var state: S

    constructor (api: FilterApi<S>, ghost owner: Instance<S>)
      ensures this.api == api && this.owner == owner && state == api.initial
    {
      this.api := api;
      this.owner := owner;
      state := api.initial;
    }

    method SaveState(st: RfxState)
      modifies st`state
      ensures st.state == old(st.state) + api.save(state)
    {
      st.Write(api.save(state));
    }

    method LoadState(st: RfxState)
      requires st.Valid()
      modifies this`state
      ensures state == api.load(old(state), st.Left())
    {
      state := api.load(state, st.Left());
    }
  }

  // An instance by value: the state of its filter, and the bytes saved for the next one.
  datatype Slot<S> = Slot(flt: Option<S>, st: Option<seq<bv8>>)

  datatype Mod<!S> = Mod(api: Option<FilterApi<S>>, slots: seq<Slot<S>>)

  function Unloaded<S>(x: Slot<S>, api: FilterApi<S>): Slot<S> {
    if x.flt.Some? then Slot(None, Some(api.save(x.flt.value))) else x
  }

  function Loaded<S>(x: Slot<S>, api: FilterApi<S>): Slot<S> {
    Slot(Some(if x.st.Some? then api.load(api.initial, x.st.value) else api.initial), None)
  }

  function UnloadedAll<S>(xs: seq<Slot<S>>, api: FilterApi<S>): (r: seq<Slot<S>>)
    ensures |r| == |xs|
  {
    seq(|xs|, i requires 0 <= i < |xs| => Unloaded(xs[i], api))
  }

  function LoadedAll<S>(xs: seq<Slot<S>>, api: FilterApi<S>): (r: seq<Slot<S>>)
    ensures |r| == |xs|
  {
    seq(|xs|, i requires 0 <= i < |xs| => Loaded(xs[i], api))
  }

  function Closed<S>(m: Mod<S>): Mod<S> {
    if m.api.Some? then Mod(None, UnloadedAll(m.slots, m.api.value)) else m
  }

  // One attempt to reload: `answer` is what the dynamic linker gives.
  function Reloaded<S>(m: Mod<S>, answer: Option<FilterApi<S>>): Mod<S> {
    match answer
    case None => Closed(m)
    case Some(api) => Mod(answer, LoadedAll(Closed(m).slots, api))
  }

  function Added<S>(m: Mod<S>): Mod<S> {
    m.(slots := m.slots + [Slot(if m.api.Some? then Some(m.api.value.initial) else None, None)])
  }

  function Processed<S>(m: Mod<S>, k: nat, f: S -> S): Mod<S> {
    if k < |m.slots| && m.slots[k].flt.Some?
    then m.(slots := m.slots[k := m.slots[k].(flt := Some(f(m.slots[k].flt.value)))]) else m
  }

  class Instance<S> {
    var st: RfxState?
    var flt: Filter?<S>

    constructor ()
      ensures st == null && flt == null
    {
      st := null;
      flt := null;
    }

    ghost predicate Valid(api: Option<FilterApi<S>>)
      reads this, flt, st
    {
      && (flt != null ==> flt.owner == this && st == null && api == Some(flt.api))
      && (st != null ==> st.pos == 0 && api == None)
    }

    ghost function View(): Slot<S>
      reads this, flt, st
    {
      Slot(if flt == null then None else Some(flt.state), if st == null then None else Some(st.state))
    }

    // Saves and drops the filter.
    method Unload(ghost api: FilterApi<S>)
      requires Valid(Some(api))
      modifies this
      ensures Valid(None) && View() == Unloaded(old(View()), api)
    {
      if flt != null {
        st := new RfxState(0);
        flt.SaveState(st);
        assert st.state == api.save(flt.state);
        flt := null;
      }
    }

    // Makes a filter and gives it the saved state, if there is one.
    method Restore(api: FilterApi<S>)
      requires Valid(None)
      modifies this
      ensures Valid(Some(api)) && View() == Loaded(old(View()), api)
    {
      flt := new Filter(api, this);
      if st != null {
        assert st.Left() == st.state;
        flt.LoadState(st);
        st := null;
      }
    }
  }

  class Module<S> {
    var dlh: bool
    var filterNew: Option<FilterApi<S>>
    var ih: seq<Instance<S>>

    constructor ()
      ensures Valid() && View() == Mod(None, [])
    {
      dlh, filterNew, ih := false, None, [];
    }

    ghost predicate Valid()
      reads this, ih, set i | i in ih :: i.flt, set i | i in ih :: i.st
    {
      && dlh == filterNew.Some?
      && (forall j, k :: 0 <= j < k < |ih| ==> ih[j] != ih[k])
      && (forall k :: 0 <= k < |ih| ==> ih[k].Valid(filterNew))
    }

    ghost function View(): Mod<S>
      reads this, ih, set i | i in ih :: i.flt, set i | i in ih :: i.st
    {
      Mod(filterNew, Views(ih))
    }

    method NewInstance() returns (rfi: Instance<S>)
      requires Valid()
      modifies this`ih
      ensures Valid() && fresh(rfi) && ih == old(ih) + [rfi]
      ensures View() == Added(old(View()))
    {
      hide Views, Loaded, Unloaded;
      rfi := new Instance<S>();
      if filterNew.Some? {
        rfi.flt := new Filter(filterNew.value, rfi);
      }
      ih := ih + [rfi];
      assert forall k :: 0 <= k < |old(ih)| ==> ih[k] == old(ih)[k] && ih[k].View() == old(ih[k].View());
    }

    // A filter at work: its state changes if it is there at all.
    method Process(k: nat, f: S -> S)
      requires Valid()
      modifies set i | i in ih :: i.flt
      ensures Valid() && View() == Processed(old(View()), k, f)
    {
      if k < |ih| && ih[k].flt != null {
        ih[k].flt.state := f(ih[k].flt.state);
      }
    }

    // load: `answer` is what the dynamic linker gives. Instances wait for their filters.
    method Load(answer: Option<FilterApi<S>>) returns (ok: bool)
      requires Valid() && !dlh
      modifies this`dlh, this`filterNew
      ensures ok == answer.Some? && dlh == ok && filterNew == answer && ih == old(ih)
      ensures forall k :: 0 <= k < |ih| ==> ih[k].Valid(None) && ih[k].View() == old(ih[k].View())
      ensures ih == [] ==> Valid() && View() == Mod(answer, [])
    {
      if answer == None {
        return false;
      }
      filterNew := answer;
      dlh := true;
      ok := true;
    }

    method Reload(answer: Option<FilterApi<S>>)
      requires Valid()
      modifies this`dlh, this`filterNew, ih
      ensures Valid() && View() == Reloaded(old(View()), answer)
    {
      if dlh {
        Unload();
      }
      ghost var m := View();
      assert m == Closed(old(View()));
      var ok := Load(answer);
      if ok {
        assert Views(ih) == m.slots;
        Restore();
      }
    }

    method Unload()
      requires Valid() && dlh
      modifies this`dlh, this`filterNew, ih
      ensures Valid() && !dlh && View() == Closed(old(View()))
    {
      hide Views, Loaded, Unloaded;
      var k := 0;
      while k < |ih|
        invariant dlh && filterNew == old(filterNew) && 0 <= k <= |ih|
        invariant forall j :: 0 <= j < k ==> ih[j].Valid(None)
        invariant forall j :: 0 <= j < k ==> ih[j].View() == Unloaded(old(ih[j].View()), filterNew.value)
        invariant forall j :: k <= j < |ih| ==> ih[j].Valid(filterNew) && ih[j].View() == old(ih[j].View())
      {
        ih[k].Unload(filterNew.value);
        k := k + 1;
      }
      dlh := false;
      filterNew := None;
    }

    // Recreates the filters.
    method Restore()
      requires dlh && filterNew.Some? && forall j, k :: 0 <= j < k < |ih| ==> ih[j] != ih[k]
      requires forall k :: 0 <= k < |ih| ==> ih[k].Valid(None)
      modifies ih
      ensures Valid() && View() == Mod(filterNew, LoadedAll(old(Views(ih)), filterNew.value))
    {
      hide Views, Loaded, Unloaded;
      var api := filterNew.value;
      var k := 0;
      while k < |ih|
        invariant dlh && filterNew == Some(api) && 0 <= k <= |ih|
        invariant forall j :: 0 <= j < k ==> ih[j].Valid(filterNew) && ih[j].View() == Loaded(old(ih[j].View()), api)
        invariant forall j :: k <= j < |ih| ==> ih[j].Valid(None) && ih[j].View() == old(ih[j].View())
      {
        ih[k].Restore(api);
        k := k + 1;
      }
    }
  }

  ghost function Views<S>(ih: seq<Instance<S>>): (r: seq<Slot<S>>)
    reads ih, set i | i in ih :: i.flt, set i | i in ih :: i.st
    ensures |r| == |ih| && forall k :: 0 <= k < |ih| ==> r[k] == ih[k].View()
  {
    seq(|ih|, k requires 0 <= k < |ih|
              reads ih, set i | i in ih :: i.flt, set i | i in ih :: i.st
              => ih[k].View())
  }
}

// Runs of a module: new instances, filters at work, and attempts to reload, in any order.
module ReloadRuns {
  import opened Options
  import opened LootMask
  import opened LootCommand
  import opened Reload

  datatype Event<!S> = Attempt(answer: Option<FilterApi<S>>) | Create | Work(k: nat, f: S -> S)

  function Step<S>(m: Mod<S>, e: Event<S>): Mod<S> {
    match e
    case Attempt(answer) => Reloaded(m, answer)
    case Create => Added(m)
    case Work(k, f) => Processed(m, k, f)
  }

  function Run<S>(m: Mod<S>, es: seq<Event<S>>): Mod<S>
    decreases |es|
  {
    if es == [] then m else Run(Step(m, es[0]), es[1..])
  }

  // The module as its users see it: nothing is saved or loaded, the states just stay. While no
  // library is loaded, filters do not work, and new instances wait for their filter.
  datatype Ideal<!S> = Ideal(api: Option<FilterApi<S>>, states: seq<Option<S>>)

  function Started<S>(x: Option<S>, api: FilterApi<S>): Option<S> {
    if x.Some? then x else Some(api.initial)
  }

  function IdealStep<S>(v: Ideal<S>, e: Event<S>): Ideal<S> {
    match e
    case Attempt(None) => v.(api := None)
    case Attempt(Some(a)) => Ideal(Some(a), seq(|v.states|, i requires 0 <= i < |v.states| => Started(v.states[i], a)))
    case Create => v.(states := v.states + [if v.api.Some? then Some(v.api.value.initial) else None])
    case Work(k, f) =>
      if v.api.Some? && k < |v.states| && v.states[k].Some?
      then v.(states := v.states[k := Some(f(v.states[k].value))]) else v
  }

  function IdealRun<S>(v: Ideal<S>, es: seq<Event<S>>): Ideal<S>
    decreases |es|
  {
    if es == [] then v else IdealRun(IdealStep(v, es[0]), es[1..])
  }

  // The library writes states the way `enc` says, and reads them back.
  ghost predicate Speaks<S(!new)>(a: FilterApi<S>, enc: S -> seq<bv8>) {
    && (forall s :: a.save(s) == enc(s))
    && (forall s, t :: a.load(t, enc(s)) == s)
  }

  ghost predicate EventSpeaks<S(!new)>(e: Event<S>, enc: S -> seq<bv8>) {
    e.Attempt? && e.answer.Some? ==> Speaks(e.answer.value, enc)
  }

  ghost predicate IdealOk<S(!new)>(v: Ideal<S>, enc: S -> seq<bv8>) {
    v.api.Some? ==> Speaks(v.api.value, enc) && forall i :: 0 <= i < |v.states| ==> v.states[i].Some?
  }

  function Packed<S>(x: Option<S>, up: bool, enc: S -> seq<bv8>): Slot<S> {
    match x
    case None => Slot(None, None)
    case Some(s) => if up then Slot(Some(s), None) else Slot(None, Some(enc(s)))
  }

  function PackedAll<S>(v: Ideal<S>, enc: S -> seq<bv8>): Mod<S> {
    Mod(v.api, seq(|v.states|, i requires 0 <= i < |v.states| => Packed(v.states[i], v.api.Some?, enc)))
  }

  lemma StepIsIdeal<S(!new)>(v: Ideal<S>, e: Event<S>, enc: S -> seq<bv8>)
    requires IdealOk(v, enc) && EventSpeaks(e, enc)
    ensures IdealOk(IdealStep(v, e), enc)
    ensures Step(PackedAll(v, enc), e) == PackedAll(IdealStep(v, e), enc)
  {
    assert Step(PackedAll(v, enc), e).slots == PackedAll(IdealStep(v, e), enc).slots;
  }

  // Reloading loses nothing: in every run, whatever loads fail and for however long, each instance
  // has exactly the state it would have had if nothing had ever been unloaded, either in its filter
  // or as the saved bytes of it.
  lemma {:induction false} ReloadLosesNothing<S(!new)>(v: Ideal<S>, es: seq<Event<S>>, enc: S -> seq<bv8>)
    requires IdealOk(v, enc)
    requires forall i :: 0 <= i < |es| ==> EventSpeaks(es[i], enc)
    ensures IdealOk(IdealRun(v, es), enc)
    ensures Run(PackedAll(v, enc), es) == PackedAll(IdealRun(v, es), enc)
    decreases |es|
  {
    if es != [] {
      StepIsIdeal(v, es[0], enc);
      ReloadLosesNothing(IdealStep(v, es[0]), es[1..], enc);
    }
  }

  function Failures<S>(n: nat): (es: seq<Event<S>>)
    ensures |es| == n
  {
    seq(n, _ => Attempt(None))
  }

  lemma {:induction false} FailuresChangeNothing<S>(m: Mod<S>, n: nat, last: Event<S>)
    requires m.api == None
    ensures Run(m, Failures(n) + [last]) == Step(m, last)
    decreases n
  {
    var es := Failures<S>(n) + [last];
    if n == 0 {
      assert es == [last];
    } else {
      assert es[0] == Attempt(None) && es[1..] == Failures(n - 1) + [last];
      FailuresChangeNothing(m, n - 1, last);
    }
  }

  // Libraries need not agree on the format. After any number of failed attempts, the next library
  // that loads is given what the last one saved; so a state survives if and only if the new library
  // reads it back from that.
  lemma SurvivesIffReadBack<S>(m: Mod<S>, n: nat, a: FilterApi<S>, k: nat)
    requires m.api.Some? && k < |m.slots| && m.slots[k].flt.Some?
    ensures var after := Run(m, Failures(n) + [Attempt(Some(a))]).slots;
      && |after| == |m.slots|
      && (after[k] == Slot(m.slots[k].flt, None)
          <==> a.load(a.initial, m.api.value.save(m.slots[k].flt.value)) == m.slots[k].flt.value)
  {
    var es := Failures<S>(n) + [Attempt(Some(a))];
    if n == 0 {
      assert es == [Attempt(Some(a))];
    } else {
      assert es[0] == Attempt(None) && es[1..] == Failures(n - 1) + [Attempt(Some(a))];
      FailuresChangeNothing(Step(m, Attempt(None)), n - 1, Attempt(Some(a)));
    }
  }

  function LootApi(): FilterApi<Masks> {
    FilterApi<Masks>.FilterApi((seq(BYTES, _ => 0xff), seq(BYTES, _ => 0)), LootBytes, LootLoaded)
  }

  // The loot module is such a library.
  lemma LootSpeaks()
    ensures Speaks<Masks>(LootApi(), LootBytes)
  {
    forall m: Masks, other: Masks
      ensures LootLoaded(other, LootBytes(m)) == m
    {
      SavedLootIsRestored(m, other, []);
      assert LootBytes(m) + [] == LootBytes(m);
    }
  }
}
