/**
 The plugin registry (stream_executor/plugin_registry.cc): factories for each platform and for all
 platforms, and a default plugin for each platform and kind.  The answers of the registry are
 specified by the calls made on it so far.
 */
module PluginRegistries {

  import opened Options

  datatype Kind = Blas | Dnn | Fft | Rng

  /** Plugin ids are addresses; one of them stands for the default plugin. */
  const NULL_PLUGIN: nat := 0
  const DEFAULT_PLUGIN: nat := 1

  datatype Answer = Found(factory: nat) | NotFound | FailedPrecondition

  /** A call that may change the registry; `platform` is absent for all platforms. */
  datatype Call =
    | Register(platform: Option<nat>, kind: Kind, id: nat, factory: nat)
    | SetDefault(on: nat, which: Option<Kind>, id: nat)

  // ----- what the calls so far mean

  /** The factory in the first registration of `id` for this platform, or for all platforms. */
  function First(calls: seq<Call>, platform: Option<nat>, kind: Kind, id: nat): Option<nat> {
    if calls == [] then None
    else
      var x := calls[0];
      if x.Register? && x.platform == platform && x.kind == kind && x.id == id then Some(x.factory)
      else First(calls[1..], platform, kind, id)
  }

  /** A platform's own registration comes before one for all platforms. */
  function Resolve(calls: seq<Call>, platform: nat, kind: Kind, id: nat): Option<nat> {
    var own := First(calls, Some(platform), kind, id);
    if own.Some? then own else First(calls, None, kind, id)
  }

  /** The id in the last SetDefault for this platform and kind that named a plugin known at that time. */
  function Default(calls: seq<Call>, platform: nat, kind: Kind): nat {
    if calls == [] then NULL_PLUGIN
    else
      var before, x := calls[..|calls| - 1], calls[|calls| - 1];
      if x == SetDefault(platform, Some(kind), x.id) && Resolve(before, platform, kind, x.id).Some? then x.id
      else Default(before, platform, kind)
  }

  lemma {:induction false} FirstAppend(calls: seq<Call>, x: Call, platform: Option<nat>, kind: Kind, id: nat)
    ensures First(calls + [x], platform, kind, id) ==
            if First(calls, platform, kind, id).Some? then First(calls, platform, kind, id)
            else First([x], platform, kind, id)
  {
    if calls != [] {
      FirstAppend(calls[1..], x, platform, kind, id);
      assert (calls + [x])[1..] == calls[1..] + [x];
    } else {
      assert calls + [x] == [x];
    }
  }

  /** A registered factory is never replaced. */
  lemma {:induction false} FirstStays(calls: seq<Call>, more: seq<Call>, platform: Option<nat>, kind: Kind, id: nat)
    requires First(calls, platform, kind, id).Some?
    ensures First(calls + more, platform, kind, id) == First(calls, platform, kind, id)
    decreases |more|
  {
    if more == [] {
      assert calls + more == calls;
    } else {
      FirstAppend(calls, more[0], platform, kind, id);
      FirstStays(calls + [more[0]], more[1..], platform, kind, id);
      assert calls + [more[0]] + more[1..] == calls + more;
    }
  }

  lemma ResolveStays(calls: seq<Call>, more: seq<Call>, platform: nat, kind: Kind, id: nat)
    requires Resolve(calls, platform, kind, id).Some?
    ensures Resolve(calls + more, platform, kind, id).Some?
  {
    if First(calls, Some(platform), kind, id).Some? {
      FirstStays(calls, more, Some(platform), kind, id);
    } else {
      FirstStays(calls, more, None, kind, id);
    }
  }

  /** After any calls, a default plugin is a plugin that resolves. */
  lemma {:induction false} DefaultResolves(calls: seq<Call>, platform: nat, kind: Kind)
    requires Default(calls, platform, kind) != NULL_PLUGIN
    ensures Resolve(calls, platform, kind, Default(calls, platform, kind)).Some?
    decreases |calls|
  {
    var before, x := calls[..|calls| - 1], calls[|calls| - 1];
    assert calls == before + [x];
    if x == SetDefault(platform, Some(kind), x.id) && Resolve(before, platform, kind, x.id).Some? {
      ResolveStays(before, [x], platform, kind, x.id);
    } else {
      DefaultResolves(before, platform, kind);
      ResolveStays(before, [x], platform, kind, Default(before, platform, kind));
    }
  }

  // ----- the registry

  class PluginRegistry {
    var factories: map<nat, map<(Kind, nat), nat>>
    var genericFactories: map<(Kind, nat), nat>
    var defaultFactories: map<(nat, Kind), nat>
    ghost var calls: seq<Call>

    function Own(platform: nat): map<(Kind, nat), nat>
      reads this
    {
      if platform in factories then factories[platform] else map[]
    }

    function DefaultOf(platform: nat, kind: Kind): nat
      reads this
    {
      if (platform, kind) in defaultFactories then defaultFactories[(platform, kind)] else NULL_PLUGIN
    }

    ghost predicate Valid()
      reads this
    {
      && (forall p, k, id :: Look(Own(p), k, id) == First(calls, Some(p), k, id))
      && (forall k, id :: Look(genericFactories, k, id) == First(calls, None, k, id))
      && (forall p, k :: DefaultOf(p, k) == Default(calls, p, k))
    }

    constructor ()
      ensures Valid() && calls == []
    {
      factories, genericFactories, defaultFactories, calls := map[], map[], map[], [];
    }

    /** `ok` is false when a factory is registered already. */
    method RegisterFactory(platform: Option<nat>, kind: Kind, id: nat, factory: nat) returns (ok: bool)
      requires Valid()
      modifies this
      ensures Valid() && calls == old(calls) + [Register(platform, kind, id, factory)]
      ensures ok <==> First(old(calls), platform, kind, id).None?
      ensures forall p, k, i :: First(calls, p, k, i) ==
                if ok && p == platform && k == kind && i == id then Some(factory) else First(old(calls), p, k, i)
      ensures forall p, k :: Default(calls, p, k) == Default(old(calls), p, k)
    {
      ghost var x := Register(platform, kind, id, factory);
      Registered(calls, x);
      calls := calls + [x];
      match platform {
        case None =>
          if (kind, id) in genericFactories {
            assert Look(genericFactories, kind, id).Some?;
            return false;
          }
          assert Look(genericFactories, kind, id).None?;
          genericFactories := genericFactories[(kind, id) := factory];
        case Some(p) =>
          var own := Own(p);
          assert Look(own, kind, id) == First(old(calls), Some(p), kind, id);
          if (kind, id) in own {
            return false;
          }
          factories := factories[p := own[(kind, id) := factory]];
      }
      ok := true;
    }

    method HasFactory(platform: nat, kind: Option<Kind>, id: nat) returns (r: bool)
      requires Valid()
      ensures r <==> kind.Some? && Resolve(calls, platform, kind.value, id).Some?
      ensures r <==> kind.Some? && (First(calls, Some(platform), kind.value, id).Some? || First(calls, None, kind.value, id).Some?)
    {
      if kind.None? {
        return false;
      }
      assert Look(Own(platform), kind.value, id) == First(calls, Some(platform), kind.value, id);
      assert Look(genericFactories, kind.value, id) == First(calls, None, kind.value, id);
      if platform in factories {
        if (kind.value, id) in factories[platform] {
          return true;
        }
      }
      r := (kind.value, id) in genericFactories;
    }

    method SetDefaultFactory(platform: nat, kind: Option<Kind>, id: nat) returns (ok: bool)
      requires Valid()
      modifies this
      ensures Valid() && calls == old(calls) + [SetDefault(platform, kind, id)]
      ensures ok <==> kind.Some? && Resolve(old(calls), platform, kind.value, id).Some?
      ensures forall p, k :: Default(calls, p, k) ==
                if ok && p == platform && Some(k) == kind then id else Default(old(calls), p, k)
      ensures forall p, k, i :: First(calls, p, k, i) == First(old(calls), p, k, i)
    {
      ghost var x := SetDefault(platform, kind, id);
      Defaulted(calls, x);
      ok := HasFactory(platform, kind, id);
      calls := calls + [x];
      if ok {
        defaultFactories := defaultFactories[(platform, kind.value) := id];
      }
    }

    /** Asking for the default plugin never yields NOT_FOUND. */
    method GetFactory(platform: nat, kind: Kind, id: nat) returns (r: Answer)
      requires Valid()
      ensures var named := if id == DEFAULT_PLUGIN then Default(calls, platform, kind) else id;
              if id == DEFAULT_PLUGIN && named == NULL_PLUGIN then r == FailedPrecondition
              else match Resolve(calls, platform, kind, named)
                   case Some(f) => r == Found(f)
                   case None => r == NotFound
      ensures id == DEFAULT_PLUGIN ==> r != NotFound
      ensures r.FailedPrecondition? <==> id == DEFAULT_PLUGIN && Default(calls, platform, kind) == NULL_PLUGIN
      ensures !r.FailedPrecondition? ==>
                var named := if id == DEFAULT_PLUGIN then Default(calls, platform, kind) else id;
                var own, generic := First(calls, Some(platform), kind, named), First(calls, None, kind, named);
                && (own.Some? ==> r == Found(own.value))
                && (own.None? && generic.Some? ==> r == Found(generic.value))
                && (own.None? && generic.None? ==> r == NotFound)
    {
      var id' := id;
      if id == DEFAULT_PLUGIN {
        id' := DefaultOf(platform, kind);
        assert id' == Default(calls, platform, kind);
        if id' == NULL_PLUGIN {
          return FailedPrecondition;
        }
        DefaultResolves(calls, platform, kind);
      }
      assert Look(Own(platform), kind, id') == First(calls, Some(platform), kind, id');
      assert Look(genericFactories, kind, id') == First(calls, None, kind, id');
      if (kind, id') in Own(platform) {
        return Found(Own(platform)[(kind, id')]);
      }
      if (kind, id') !in genericFactories {
        return NotFound;
      }
      r := Found(genericFactories[(kind, id')]);
    }
  }

  function Look(m: map<(Kind, nat), nat>, kind: Kind, id: nat): Option<nat> {
    if (kind, id) in m then Some(m[(kind, id)]) else None
  }

  lemma Registered(calls: seq<Call>, x: Call)
    requires x.Register?
    ensures forall p, k, id :: First(calls + [x], p, k, id) ==
              if First(calls, p, k, id).None? && x.platform == p && x.kind == k && x.id == id then Some(x.factory)
              else First(calls, p, k, id)
    ensures forall p, k :: Default(calls + [x], p, k) == Default(calls, p, k)
  {
    forall p, k, id
      ensures First(calls + [x], p, k, id) ==
              if First(calls, p, k, id).None? && x.platform == p && x.kind == k && x.id == id then Some(x.factory)
              else First(calls, p, k, id)
    {
      FirstAppend(calls, x, p, k, id);
    }
    assert (calls + [x])[..|calls|] == calls;
  }

  lemma Defaulted(calls: seq<Call>, x: Call)
    requires x.SetDefault?
    ensures forall p, k, id :: First(calls + [x], p, k, id) == First(calls, p, k, id)
    ensures forall p, k :: Default(calls + [x], p, k) ==
              if x.on == p && x.which == Some(k) && Resolve(calls, p, k, x.id).Some? then x.id else Default(calls, p, k)
  {
    forall p, k, id ensures First(calls + [x], p, k, id) == First(calls, p, k, id) {
      FirstAppend(calls, x, p, k, id);
    }
    assert (calls + [x])[..|calls|] == calls;
  }
}
