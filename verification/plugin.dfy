/**
 * The ThroughputTest plugin's listener toggle: the sync packet listener is
 * installed on enable, and the "throughput" command swaps it for an async
 * handler and back, kicking every online player with a message naming the
 * new mode.  ProtocolLib and Bukkit are seen only through the calls the
 * plugin makes on them, recorded in order, and through the registration
 * state those calls leave behind.
 */
module Plugin {
  import opened Options

  type PlayerId = nat

  /** A call the plugin makes into ProtocolLib or Bukkit. */
  datatype Call =
    | AddPacketListener          // protocolManager.addPacketListener
    | RemovePacketListener       // protocolManager.removePacketListener
    | RegisterAsyncHandler       // asynchronousManager.registerAsyncHandler
    | StartAsyncHandler          // asyncListenerHandler.start
    | StopAsyncHandler           // asyncListenerHandler.stop
    | UnregisterAsyncHandler     // asynchronousManager.unregisterAsyncHandler
    | RegisterEvents             // pluginManager.registerEvents (the join hook)
    | KickPlayer(player: PlayerId, message: string)
    | SendMessage(player: PlayerId, message: string)

  /** The mode flag and the registration state the collaborators hold. */
  datatype PipelineState = PipelineState(
    usingSync: bool,
    syncRegistered: bool,
    asyncRegistered: bool,
    asyncRunning: bool)

  const Initial := PipelineState(true, false, false, false)

  /** The effect of one call on the registration state; the mode flag is the plugin's own. */
  function Apply(p: PipelineState, c: Call): (q: PipelineState)
    ensures q.usingSync == p.usingSync
  {
    match c
    case AddPacketListener => p.(syncRegistered := true)
    case RemovePacketListener => p.(syncRegistered := false)
    case RegisterAsyncHandler => p.(asyncRegistered := true, asyncRunning := false)
    case StartAsyncHandler => p.(asyncRunning := true)
    case StopAsyncHandler => p.(asyncRunning := false)
    case UnregisterAsyncHandler => p.(asyncRegistered := false)
    case _ => p
  }

  function ApplyAll(p: PipelineState, cs: seq<Call>): PipelineState
    decreases |cs|
  {
    if cs == [] then p else ApplyAll(Apply(p, cs[0]), cs[1..])
  }

  /** Sync callbacks fire. */
  predicate SyncActive(p: PipelineState)
  {
    p.syncRegistered
  }

  /** Async callbacks fire. */
  predicate AsyncActive(p: PipelineState)
  {
    p.asyncRegistered && p.asyncRunning
  }

  /** Exactly the pipeline the flag names is installed, and nothing of the other one. */
  predicate Consistent(p: PipelineState)
  {
    if p.usingSync then p.syncRegistered && !p.asyncRegistered && !p.asyncRunning
    else !p.syncRegistered && p.asyncRegistered && p.asyncRunning
  }

  /** The teardown-then-setup calls of one toggle, from the given mode. */
  function TransitionCalls(usingSync: bool): seq<Call>
  {
    if usingSync then [RemovePacketListener, RegisterAsyncHandler, StartAsyncHandler]
    else [StopAsyncHandler, UnregisterAsyncHandler, AddPacketListener]
  }

  /** One toggle: the transition calls, then the flag flips. */
  function Toggle(p: PipelineState): (t: PipelineState)
    ensures t.usingSync == !p.usingSync
  {
    ApplyAll(p, TransitionCalls(p.usingSync)).(usingSync := !p.usingSync)
  }

  function Kicks(players: seq<PlayerId>, message: string): (cs: seq<Call>)
    ensures |cs| == |players|
    ensures forall i :: 0 <= i < |players| ==> cs[i] == KickPlayer(players[i], message)
  {
    if players == [] then [] else [KickPlayer(players[0], message)] + Kicks(players[1..], message)
  }

  /** How the messages name a mode. */
  function ModeName(usingSync: bool): string
  {
    if usingSync then "sync" else "async"
  }

  /**
   * The kick message sent after a toggle into the given mode:
   * "changed packet listener to sync, please reconnect" or
   * "changed packet listener to async, please reconnect".
   */
  function KickMessage(usingSync: bool): string
  {
    KickPrefix + ModeName(usingSync) + KickSuffix
  }

  const KickPrefix := "changed packet listener to "
  const KickSuffix := ", please reconnect"
  const StatusPrefix := "currently using "
  const StatusSuffix := " packet listener"
  const DisableMessage := "plugin got disabled, please reconnect"
  const CommandName := "throughput"

  /**
   * The mode a message names: the word between a prefix and a suffix,
   * "sync" for the sync listener and "async" for the async one.
   */
  function NamedMode(message: string, prefix: string, suffix: string): Option<bool>
  {
    if |prefix| + |suffix| <= |message| && message[..|prefix|] == prefix
       && message[|message| - |suffix|..] == suffix
    then
      var word := message[|prefix|..|message| - |suffix|];
      if word == "sync" then Some(true) else if word == "async" then Some(false) else None
    else None
  }

  // ---------------------------------------------------------------------
  // String.equalsIgnoreCase, over ASCII letters

  function UpperAscii(c: char): char
  {
    if 'a' <= c <= 'z' then (c as int - 32) as char else c
  }

  function LowerAscii(c: char): char
  {
    if 'A' <= c <= 'Z' then (c as int + 32) as char else c
  }

  predicate CharsEqualIgnoreCase(a: char, b: char)
  {
    a == b || UpperAscii(a) == UpperAscii(b) || LowerAscii(a) == LowerAscii(b)
  }

  predicate EqualsIgnoreCase(a: string, b: string)
  {
    |a| == |b| && forall i :: 0 <= i < |a| ==> CharsEqualIgnoreCase(a[i], b[i])
  }

  /** A command name is accepted exactly when lower-casing it gives "throughput". */
  lemma AcceptedCommandNames(name: string)
    ensures EqualsIgnoreCase(name, CommandName)
        <==> |name| == |CommandName| && forall i :: 0 <= i < |name| ==> LowerAscii(name[i]) == CommandName[i]
  {
    forall i | 0 <= i < |name| && i < |CommandName|
      ensures CharsEqualIgnoreCase(name[i], CommandName[i]) <==> LowerAscii(name[i]) == CommandName[i]
    {
      LowerCaseLetter(name[i], CommandName[i]);
    }
  }

  lemma LowerCaseLetter(c: char, l: char)
    requires 'a' <= l <= 'z'
    ensures CharsEqualIgnoreCase(c, l) <==> LowerAscii(c) == l
  {
  }

  // ---------------------------------------------------------------------
  // Properties of the toggle

  /** A consistent state has exactly one pipeline active, the one the flag names. */
  lemma ConsistentExactlyOne(p: PipelineState)
    requires Consistent(p)
    ensures SyncActive(p) != AsyncActive(p)
    ensures SyncActive(p) == p.usingSync
  {
  }

  /** Applying calls one more call at a time. */
  lemma {:induction false} ApplyAllAppend(p: PipelineState, cs: seq<Call>, c: Call)
    ensures ApplyAll(p, cs + [c]) == Apply(ApplyAll(p, cs), c)
    decreases |cs|
  {
    if cs != [] {
      assert (cs + [c])[1..] == cs[1..] + [c];
      ApplyAllAppend(Apply(p, cs[0]), cs[1..], c);
    }
  }

  /** The state after the first k calls of a transition. */
  lemma TransitionSteps(p: PipelineState)
    ensures var cs := TransitionCalls(p.usingSync);
      && ApplyAll(p, cs[..1]) == Apply(p, cs[0])
      && ApplyAll(p, cs[..2]) == Apply(Apply(p, cs[0]), cs[1])
      && ApplyAll(p, cs) == Apply(Apply(Apply(p, cs[0]), cs[1]), cs[2])
  {
    var cs := TransitionCalls(p.usingSync);
    assert cs[..0] == [];
    assert cs[..1] == cs[..0] + [cs[0]];
    ApplyAllAppend(p, cs[..0], cs[0]);
    assert cs[..2] == cs[..1] + [cs[1]];
    ApplyAllAppend(p, cs[..1], cs[1]);
    assert cs == cs[..2] + [cs[2]];
    ApplyAllAppend(p, cs[..2], cs[2]);
  }

  /** A toggle flips the flag and keeps the state consistent. */
  lemma ToggleConsistent(p: PipelineState)
    requires Consistent(p)
    ensures Toggle(p).usingSync == !p.usingSync
    ensures Consistent(Toggle(p))
  {
    TransitionSteps(p);
  }

  /** Toggling twice restores the state. */
  lemma ToggleTwice(p: PipelineState)
    requires Consistent(p)
    ensures Toggle(Toggle(p)) == p
  {
    TransitionSteps(p);
    TransitionSteps(Toggle(p));
  }

  /**
   * The old pipeline is torn down before the new one is built: after the
   * first or second call of a transition no pipeline is active, and at no
   * point are both.
   */
  lemma TransitionNeverOverlaps(p: PipelineState, k: nat)
    requires Consistent(p)
    requires k <= 3
    ensures var q := ApplyAll(p, TransitionCalls(p.usingSync)[..k]);
      && !(SyncActive(q) && AsyncActive(q))
      && (1 <= k <= 2 ==> !SyncActive(q) && !AsyncActive(q))
  {
    TransitionSteps(p);
    var cs := TransitionCalls(p.usingSync);
    assert cs[..0] == [];
    assert cs[..3] == cs;
  }

  /** A message built around a mode name names that mode. */
  lemma NamedModeOfMessage(prefix: string, usingSync: bool, suffix: string)
    ensures NamedMode(prefix + ModeName(usingSync) + suffix, prefix, suffix) == Some(usingSync)
  {
    var m := prefix + ModeName(usingSync) + suffix;
    assert m[..|prefix|] == prefix;
    assert m[|m| - |suffix|..] == suffix;
    assert m[|prefix|..|m| - |suffix|] == ModeName(usingSync);
  }

  /** The kick message names the mode it was sent for. */
  lemma KickMessageNamesMode(usingSync: bool)
    ensures NamedMode(KickMessage(usingSync), KickPrefix, KickSuffix) == Some(usingSync)
  {
    NamedModeOfMessage(KickPrefix, usingSync, KickSuffix);
  }

  // ---------------------------------------------------------------------
  // The plugin

  class ThroughputTest {
    var usingSyncListener: bool
    // registration state held by ProtocolLib
    var syncRegistered: bool
    var asyncRegistered: bool
    var asyncRunning: bool
    /** Every call made on the collaborators so far, in order. */
    var calls: seq<Call>

    function State(): PipelineState
      reads this
    {
      PipelineState(usingSyncListener, syncRegistered, asyncRegistered, asyncRunning)
    }

    ghost predicate Valid()
      reads this
    {
      Consistent(State())
    }

    constructor ()
      ensures State() == Initial && calls == []
    {
      usingSyncListener := true;
      syncRegistered, asyncRegistered, asyncRunning := false, false, false;
      calls := [];
    }

    /** One call on a collaborator. */
    method Perform(c: Call)
      modifies this
      ensures State() == Apply(old(State()), c)
      ensures calls == old(calls) + [c]
    {
      calls := calls + [c];
      match c
      case AddPacketListener => syncRegistered := true;
      case RemovePacketListener => syncRegistered := false;
      case RegisterAsyncHandler => asyncRegistered, asyncRunning := true, false;
      case StartAsyncHandler => asyncRunning := true;
      case StopAsyncHandler => asyncRunning := false;
      case UnregisterAsyncHandler => asyncRegistered := false;
      case _ =>
    }

    /** onEnable: installs the sync listener and the join hook. */
    method OnEnable()
      modifies this
      ensures State() == Apply(old(State()), AddPacketListener)
      ensures calls == old(calls) + [AddPacketListener, RegisterEvents]
      ensures old(State()) == Initial ==> Valid() && usingSyncListener
    {
      Perform(AddPacketListener);
      Perform(RegisterEvents);
    }

    /** onDisable: kicks every online player. */
    method OnDisable(onlinePlayers: seq<PlayerId>)
      modifies this
      ensures State() == old(State())
      ensures calls == old(calls) + Kicks(onlinePlayers, DisableMessage)
    {
      KickAll(onlinePlayers, DisableMessage);
    }

    /** onPlayerJoin: tells the joining player which listener is in use. */
    method OnPlayerJoin(player: PlayerId)
      modifies this
      ensures State() == old(State())
      ensures calls == old(calls) + [SendMessage(player, GetListenerMessage())]
    {
      Perform(SendMessage(player, GetListenerMessage()));
    }

    /**
     * getListenerMessage: "currently using sync packet listener" or
     * "currently using async packet listener".
     */
    function GetListenerMessage(): (message: string)
      reads this
      ensures NamedMode(message, StatusPrefix, StatusSuffix) == Some(usingSyncListener)
    {
      NamedModeOfMessage(StatusPrefix, usingSyncListener, StatusSuffix);
      StatusPrefix + ModeName(usingSyncListener) + StatusSuffix
    }

    method KickAll(players: seq<PlayerId>, message: string)
      modifies this
      ensures State() == old(State())
      ensures calls == old(calls) + Kicks(players, message)
    {
      for i := 0 to |players|
        invariant State() == old(State())
        invariant calls == old(calls) + Kicks(players[..i], message)
      {
        Perform(KickPlayer(players[i], message));
        assert Kicks(players[..i + 1], message) == Kicks(players[..i], message) + [KickPlayer(players[i], message)];
      }
      assert players[..|players|] == players;
    }

    /** The body of onCommand for an accepted command, before the kicks. */
    method SwapListener()
      modifies this
      ensures usingSyncListener == !old(usingSyncListener)
      ensures State() == Toggle(old(State()))
      ensures calls == old(calls) + TransitionCalls(old(usingSyncListener))
      ensures old(Valid()) ==> Valid()
    {
      TransitionSteps(State());
      if Valid() {
        ToggleConsistent(State());
      }
      if usingSyncListener {
        Perform(RemovePacketListener);
        Perform(RegisterAsyncHandler);
        Perform(StartAsyncHandler);
        usingSyncListener := false;
      } else {
        Perform(StopAsyncHandler);
        Perform(UnregisterAsyncHandler);
        Perform(AddPacketListener);
        usingSyncListener := true;
      }
    }

    /**
     * onCommand: a foreign command is declined and changes nothing; the
     * "throughput" command (any letter case) toggles the listener and
     * kicks every online player with a message naming the new mode.
     */
    method OnCommand(commandName: string, onlinePlayers: seq<PlayerId>) returns (handled: bool)
      modifies this
      ensures handled <==> EqualsIgnoreCase(commandName, CommandName)
      ensures usingSyncListener == (old(usingSyncListener) != handled)
      ensures handled ==> State() == Toggle(old(State()))
      ensures handled ==> calls == old(calls) + TransitionCalls(old(usingSyncListener))
                                              + Kicks(onlinePlayers, KickMessage(usingSyncListener))
      ensures !handled ==> State() == old(State()) && calls == old(calls)
      ensures old(Valid()) ==> Valid()
    {
      if !EqualsIgnoreCase(commandName, CommandName) {
        return false;
      }
      SwapListener();
      KickAll(onlinePlayers, KickMessage(usingSyncListener));
      handled := true;
    }
  }
}
