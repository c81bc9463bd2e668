/** The phase flags of a front-end `Page`: the flags set that directives
    follow (`display`, `inputEnabled` and any custom ones), and the `ot.phase`
    events the page emits about them.  Event dispatch itself is outside the
    model; the page records the detail of every `ot.phase` event that
    `resetPhase`, `togglePhase`, `switchDisplay`, `freezeInputs` and
    `unfreezeInputs` emit.  The controllers that `init()` sets up on the
    page's elements are not part of this model. */
module Page {
  import opened Wrappers
  import opened Json

  /** The flags of a fresh phase. */
  function InitialFlags(): Dict {
    map["display" := Null, "inputEnabled" := Bool(false)]
  }

  /** The phase `resetPhase(flags)` installs: the initial flags overridden
      by the given ones; a missing `flags` adds nothing. */
  function ResetFlags(flags: Option<Dict>): (r: Dict)
    ensures flags.None? ==> r == InitialFlags()
    ensures flags.Some? ==> forall k :: k in r <==> k in flags.value || k == "display" || k == "inputEnabled"
    ensures flags.Some? ==> forall k :: k in flags.value ==> r[k] == flags.value[k]
    ensures forall k :: k in InitialFlags() && (flags.None? || k !in flags.value) ==> k in r && r[k] == InitialFlags()[k]
  {
    match flags
    case None => InitialFlags()
    case Some(f) => InitialFlags() + f
  }

  /** `Object.assign(phase, flags)`: the given flags override, the others
      are kept. */
  function Toggled(phase: Dict, flags: Dict): (r: Dict)
    ensures forall k :: k in r <==> k in phase || k in flags
    ensures forall k :: k in flags ==> r[k] == flags[k]
    ensures forall k :: k in phase && k !in flags ==> r[k] == phase[k]
  {
    phase + flags
  }

  /** Whether `unfreezeInputs` emits: the current phase enables inputs. */
  predicate InputEnabled(phase: Dict) {
    "inputEnabled" in phase && JsTruthy(phase["inputEnabled"])
  }

  class Page {
    var phase: Dict
    /** Details of the `ot.phase` events emitted, oldest first. */
    var events: seq<Dict>

    /** `new Page()`: the phase starts as `{}` and `init()` resets it, which
        emits the first `ot.phase` event (the `ot.reset` event that follows
        is not a phase event). */
    constructor()
      ensures phase == InitialFlags()
      ensures events == [map["_resetting" := Bool(true)] + InitialFlags()]
    {
      phase, events := map[], [];
      new;
      ResetPhase(None);
    }

    /** Switches the display directives: a phase event that leaves the phase
        as it is. */
    method SwitchDisplay(name: string)
      modifies this
      ensures phase == old(phase)
      ensures events == old(events) + [map["display" := Str(name), "_switching" := Bool(true)]]
    {
      events := events + [map["display" := Str(name), "_switching" := Bool(true)]];
    }

    method ResetPhase(flags: Option<Dict>)
      modifies this
      ensures phase == ResetFlags(flags)
      ensures events == old(events) + [map["_resetting" := Bool(true)] + ResetFlags(flags)]
    {
      var phase0 := InitialFlags();
      if flags.Some? {
        phase0 := phase0 + flags.value;
      }
      phase := phase0;
      events := events + [map["_resetting" := Bool(true)] + phase0];
    }

    /** Only the changes are signalled. */
    method TogglePhase(flags: Dict)
      modifies this
      ensures phase == Toggled(old(phase), flags)
      ensures events == old(events) + [flags]
    {
      phase := phase + flags;
      events := events + [flags];
    }

    /** Disables inputs for a while without touching the phase. */
    method FreezeInputs()
      modifies this
      ensures phase == old(phase)
      ensures events == old(events) + [map["inputEnabled" := Bool(false), "_freezing" := Bool(true)]]
    {
      events := events + [map["inputEnabled" := Bool(false), "_freezing" := Bool(true)]];
    }

    /** Re-enables inputs, unless the current phase disables them. */
    method UnfreezeInputs()
      modifies this
      ensures phase == old(phase)
      ensures InputEnabled(phase) ==> events == old(events) + [map["inputEnabled" := Bool(true), "_freezing" := Bool(true)]]
      ensures !InputEnabled(phase) ==> events == old(events)
    {
      if !("inputEnabled" in phase && JsTruthy(phase["inputEnabled"])) {
        return;
      }
      events := events + [map["inputEnabled" := Bool(true), "_freezing" := Bool(true)]];
    }
  }

  /** Toggling only some flags keeps `display` as it was. */
  lemma ToggleKeepsDisplay(phase: Dict, flags: Dict)
    requires "display" in phase && "display" !in flags
    ensures Toggled(phase, flags)["display"] == phase["display"]
  {
  }

  /** A reset disables inputs unless the given flags enable them, so a freeze
      after a plain reset is not undone by `unfreezeInputs`. */
  lemma ResetDisablesInputs(flags: Option<Dict>)
    ensures InputEnabled(ResetFlags(flags)) <==> flags.Some? && "inputEnabled" in flags.value && JsTruthy(flags.value["inputEnabled"])
  {
  }

  /** A phase change that disables inputs wins over a pending unfreeze;
      one that enables them lets it through. */
  lemma ToggleDecidesUnfreeze(phase: Dict, flags: Dict)
    requires "inputEnabled" in flags
    ensures InputEnabled(Toggled(phase, flags)) <==> JsTruthy(flags["inputEnabled"])
  {
  }
}
