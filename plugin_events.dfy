/**
 * The synchronous part of the plugin event system: per-event handler lists
 * kept in registration order, wildcard handlers that see every event, a
 * history bounded by `max_history`, and an on/off switch. A handler is
 * identified by a number (Python compares callables by identity); calling it
 * is recorded in the `calls` log, since the handler's own effects are
 * outside the model.
 */
module PluginEvents {
  import Seqs
  import opened Wrappers
  import opened Values

  /** a registered callable, by identity */
  type Handler = nat

  /** `PluginEvent`: the timestamp is the constant 0 the source assigns */
  datatype Event = Event(name: string, data: Value, source: Option<string>, timestamp: int)

  /** `PluginEvent(name, data, source)` */
  function NewEvent(name: string, data: Value, source: Option<string>): (e: Event)
    ensures e.name == name && e.data == data && e.source == source && e.timestamp == 0
  {
    Event(name, data, source, 0)
  }

  /** `list.remove(x)`: the first occurrence of `x` goes, the rest keep their order */
  function RemoveFirst(s: seq<Handler>, x: Handler): (r: seq<Handler>)
    ensures |r| == if x in s then |s| - 1 else |s|
    ensures multiset(r) == multiset(s) - multiset{x}
    ensures x !in s ==> r == s
  {
    if s == [] then []
    else
      assert s == [s[0]] + s[1..];
      if s[0] == x then s[1..]
      else [s[0]] + RemoveFirst(s[1..], x)
  }

  /** the position of the first `x` in `s` */
  function FirstIndex(s: seq<Handler>, x: Handler): (i: nat)
    requires x in s
    ensures i < |s| && s[i] == x && x !in s[..i]
  {
    if s[0] == x then 0
    else
      assert s[1..][..FirstIndex(s[1..], x)] == s[..FirstIndex(s[1..], x) + 1][1..];
      FirstIndex(s[1..], x) + 1
  }

  /** removing the first occurrence cuts exactly that element out of the list */
  lemma {:induction false} RemoveFirstCuts(s: seq<Handler>, x: Handler)
    requires x in s
    ensures var i := FirstIndex(s, x); RemoveFirst(s, x) == s[..i] + s[i + 1..]
  {
    if s[0] != x {
      var t := s[1..];
      assert x in t by { Seqs.ConsTail(s); }
      RemoveFirstCuts(t, x);
      var j := FirstIndex(t, x);
      assert FirstIndex(s, x) == j + 1;
      assert RemoveFirst(s, x) == [s[0]] + RemoveFirst(t, x);
      Seqs.ConsCut(s, j);
    }
  }

  /** the history after appending `e`: when it outgrows `maxHistory`, exactly the oldest event is dropped */
  function Recorded(history: seq<Event>, e: Event, maxHistory: int): seq<Event> {
    var h := history + [e];
    if |h| > maxHistory then h[1..] else h
  }

  /** a history within its bound stays within it, and the new event is always its newest entry */
  lemma RecordedBounded(history: seq<Event>, e: Event, maxHistory: int)
    requires |history| <= maxHistory
    ensures |Recorded(history, e, maxHistory)| <= maxHistory
    ensures |history| < maxHistory ==> Recorded(history, e, maxHistory) == history + [e]
    ensures 0 < |history| == maxHistory ==> Recorded(history, e, maxHistory) == history[1..] + [e]
  {
  }

  /** the calls made when `hs` are invoked on `e`, one after the other */
  function Invocations(hs: seq<Handler>, e: Event): (r: seq<(Handler, Event)>)
    ensures |r| == |hs|
    ensures forall k :: 0 <= k < |hs| ==> r[k] == (hs[k], e)
  {
    if hs == [] then [] else Invocations(hs[..|hs| - 1], e) + [(hs[|hs| - 1], e)]
  }

  /** the handlers of one event: `self._handlers.get(name, [])` */
  function HandlersOf(handlers: map<string, seq<Handler>>, name: string): seq<Handler> {
    if name in handlers then handlers[name] else []
  }

  /** `if event_name:` filter: the events of that name, in history order */
  function Named(events: seq<Event>, name: string): (r: seq<Event>)
    ensures |r| <= |events|
    ensures forall k :: 0 <= k < |r| ==> r[k].name == name
    ensures forall e :: e in events && e.name == name <==> e in r
  {
    if events == [] then []
    else
      var rest := Named(events[..|events| - 1], name);
      var last := events[|events| - 1];
      assert events == events[..|events| - 1] + [last];
      if last.name == name then rest + [last] else rest
  }

  /** Python's `events[-limit:]` for an integer `limit` */
  function TailSlice(events: seq<Event>, limit: int): (r: seq<Event>)
    ensures limit == 0 ==> r == events
    ensures limit > 0 ==> |r| == if limit <= |events| then limit else |events|
    ensures limit > 0 ==> r == events[|events| - |r|..]
    ensures limit < 0 ==> r == events[if -limit <= |events| then -limit else |events|..]
  {
    var k := -limit;
    var start := if k < 0 then (if |events| + k < 0 then 0 else |events| + k)
                 else (if k <= |events| then k else |events|);
    events[start..]
  }

  /** `get_event_history`: filtered by name when one is given (a non-empty string), then cut to the last `limit` when that is non-zero */
  function History(history: seq<Event>, eventName: Option<string>, limit: Option<int>): (r: seq<Event>)
    ensures forall k :: 0 <= k < |r| && eventName.Some? && eventName.value != "" ==> r[k].name == eventName.value
    ensures limit.None? || limit.value == 0 ==> r == (if eventName.Some? && eventName.value != "" then Named(history, eventName.value) else history)
    ensures limit.Some? && limit.value > 0 ==> |r| <= limit.value
  {
    var events := if eventName.Some? && eventName.value != "" then Named(history, eventName.value) else history;
    if limit.Some? && limit.value != 0 then TailSlice(events, limit.value) else events
  }

  /** the last `limit` events of a name, newest last: a suffix of that name's events */
  lemma HistoryIsSuffix(history: seq<Event>, name: string, limit: int)
    requires name != "" && limit > 0
    ensures var named := Named(history, name);
      var r := History(history, Some(name), Some(limit));
      |r| == (if limit <= |named| then limit else |named|) && r == named[|named| - |r|..]
  {
  }

  class PluginEventSystem {
    var handlers: map<string, seq<Handler>>
    var wildcard: seq<Handler>
    var history: seq<Event>
    var maxHistory: int
    var enabled: bool
    /** every handler call made so far, in order */
    var calls: seq<(Handler, Event)>

    /** `__init__`: no handlers, empty history of at most 1000 events, enabled */
    constructor()
      ensures handlers == map[] && wildcard == [] && history == []
      ensures maxHistory == 1000 && enabled && calls == []
    {
      handlers := map[];
      wildcard := [];
      history := [];
      maxHistory := 1000;
      enabled := true;
      calls := [];
    }

    /** `register_handler`: appended after the event's earlier handlers, duplicates included */
    method RegisterHandler(eventName: string, handler: Handler)
      modifies this
      ensures handlers == old(handlers)[eventName := HandlersOf(old(handlers), eventName) + [handler]]
      ensures wildcard == old(wildcard) && history == old(history) && maxHistory == old(maxHistory)
      ensures enabled == old(enabled) && calls == old(calls)
    {
      if eventName !in handlers {
        handlers := handlers[eventName := []];
      }
      handlers := handlers[eventName := handlers[eventName] + [handler]];
    }

    /** `register_wildcard_handler` */
    method RegisterWildcardHandler(handler: Handler)
      modifies this
      ensures wildcard == old(wildcard) + [handler]
      ensures handlers == old(handlers) && history == old(history) && maxHistory == old(maxHistory)
      ensures enabled == old(enabled) && calls == old(calls)
    {
      wildcard := wildcard + [handler];
    }

    /** `unregister_handler`: the first registration of that handler goes; otherwise nothing changes */
    method UnregisterHandler(eventName: string, handler: Handler)
      modifies this
      ensures handlers == if eventName in old(handlers) && handler in old(handlers)[eventName]
                          then old(handlers)[eventName := RemoveFirst(old(handlers)[eventName], handler)]
                          else old(handlers)
      ensures wildcard == old(wildcard) && history == old(history) && maxHistory == old(maxHistory)
      ensures enabled == old(enabled) && calls == old(calls)
    {
      if eventName in handlers {
        if handler in handlers[eventName] {
          handlers := handlers[eventName := RemoveFirst(handlers[eventName], handler)];
        }
      }
    }

    /** `unregister_wildcard_handler` */
    method UnregisterWildcardHandler(handler: Handler)
      modifies this
      ensures wildcard == RemoveFirst(old(wildcard), handler)
      ensures handlers == old(handlers) && history == old(history) && maxHistory == old(maxHistory)
      ensures enabled == old(enabled) && calls == old(calls)
    {
      if handler in wildcard {
        wildcard := RemoveFirst(wildcard, handler);
      }
    }

    /**
     * `emit`: nothing at all while disabled. Otherwise the event is recorded
     * and handed to the event's handlers in registration order, then to the
     * wildcard handlers; a handler that raises does not stop the rest.
     */
    method Emit(eventName: string, data: Value, source: Option<string>)
      modifies this
      ensures !old(enabled) ==> history == old(history) && calls == old(calls)
      ensures old(enabled) ==>
        var e := NewEvent(eventName, data, source);
        history == Recorded(old(history), e, maxHistory) &&
        calls == old(calls) + Invocations(HandlersOf(handlers, eventName), e) + Invocations(wildcard, e)
      ensures handlers == old(handlers) && wildcard == old(wildcard)
      ensures maxHistory == old(maxHistory) && enabled == old(enabled)
    {
      if !enabled {
        return;
      }
      var event := NewEvent(eventName, data, source);
      history := history + [event];
      if |history| > maxHistory {
        history := history[1..];
      }
      if eventName in handlers {
        CallAll(handlers[eventName], event);
      }
      CallAll(wildcard, event);
    }

    /** the handler loop of `emit`: each handler is called once, in list order */
    method CallAll(hs: seq<Handler>, event: Event)
      modifies this
      ensures calls == old(calls) + Invocations(hs, event)
      ensures handlers == old(handlers) && wildcard == old(wildcard) && history == old(history)
      ensures maxHistory == old(maxHistory) && enabled == old(enabled)
    {
      for i := 0 to |hs|
        invariant calls == old(calls) + Invocations(hs[..i], event)
        invariant handlers == old(handlers) && wildcard == old(wildcard) && history == old(history)
        invariant maxHistory == old(maxHistory) && enabled == old(enabled)
      {
        assert hs[..i + 1][..i] == hs[..i];
        calls := calls + [(hs[i], event)];
      }
      assert hs[..|hs|] == hs;
    }

    /** `get_event_history` */
    function GetEventHistory(eventName: Option<string>, limit: Option<int>): (r: seq<Event>)
      reads this
      ensures forall k :: 0 <= k < |r| ==> r[k] in history
    {
      var r := History(history, eventName, limit);
      assert forall k :: 0 <= k < |r| ==> r[k] in history by {
        var events := if eventName.Some? && eventName.value != "" then Named(history, eventName.value) else history;
        assert forall e :: e in events ==> e in history;
      }
      r
    }

    /** `clear_event_history` */
    method ClearEventHistory()
      modifies this
      ensures history == []
      ensures handlers == old(handlers) && wildcard == old(wildcard) && maxHistory == old(maxHistory)
      ensures enabled == old(enabled) && calls == old(calls)
    {
      history := [];
    }

    /** `list_registered_events`: every name ever given a handler, even one whose list emptied again */
    function ListRegisteredEvents(): (r: set<string>)
      reads this
      ensures forall n :: n in r <==> n in handlers
    {
      handlers.Keys
    }

    /** `get_handler_count`: zero for an event never registered */
    function GetHandlerCount(eventName: string): (r: nat)
      reads this
      ensures eventName !in handlers ==> r == 0
      ensures eventName in handlers ==> r == |handlers[eventName]|
    {
      |HandlersOf(handlers, eventName)|
    }

    /** `enable` */
    method Enable()
      modifies this
      ensures enabled
      ensures handlers == old(handlers) && wildcard == old(wildcard) && history == old(history)
      ensures maxHistory == old(maxHistory) && calls == old(calls)
    {
      enabled := true;
    }

    /** `disable` */
    method Disable()
      modifies this
      ensures !enabled
      ensures handlers == old(handlers) && wildcard == old(wildcard) && history == old(history)
      ensures maxHistory == old(maxHistory) && calls == old(calls)
    {
      enabled := false;
    }

    /** `is_enabled` */
    function IsEnabled(): bool
      reads this
    {
      enabled
    }

    /** `set_max_history`: only the bound changes; a longer history is not cut down here */
    method SetMaxHistory(max: int)
      modifies this
      ensures maxHistory == max
      ensures handlers == old(handlers) && wildcard == old(wildcard) && history == old(history)
      ensures enabled == old(enabled) && calls == old(calls)
    {
      maxHistory := max;
    }
  }

  /** the event system from a plugin's side: emitting under its name and the set of names it listens to */
  class PluginEventBus {
    const eventSystem: PluginEventSystem
    const pluginName: string
    var registered: set<string>

    constructor(eventSystem: PluginEventSystem, pluginName: string)
      ensures this.eventSystem == eventSystem && this.pluginName == pluginName
      ensures registered == {}
    {
      this.eventSystem := eventSystem;
      this.pluginName := pluginName;
      registered := {};
    }

    /** `emit`: the system's `emit` with the plugin as source */
    method Emit(eventName: string, data: Value)
      modifies eventSystem
      ensures old(eventSystem.enabled) ==>
        var e := NewEvent(eventName, data, Some(pluginName));
        eventSystem.history == Recorded(old(eventSystem.history), e, eventSystem.maxHistory) &&
        eventSystem.calls == old(eventSystem.calls) +
          Invocations(HandlersOf(eventSystem.handlers, eventName), e) + Invocations(eventSystem.wildcard, e)
      ensures !old(eventSystem.enabled) ==> eventSystem.history == old(eventSystem.history) &&
                                            eventSystem.calls == old(eventSystem.calls)
      ensures eventSystem.handlers == old(eventSystem.handlers) && eventSystem.wildcard == old(eventSystem.wildcard)
    {
      eventSystem.Emit(eventName, data, Some(pluginName));
    }

    /** `listen`: the handler is registered and the name remembered */
    method Listen(eventName: string, handler: Handler)
      modifies this, eventSystem
      ensures registered == old(registered) + {eventName}
      ensures eventSystem.handlers ==
        old(eventSystem.handlers)[eventName := HandlersOf(old(eventSystem.handlers), eventName) + [handler]]
      ensures eventSystem.wildcard == old(eventSystem.wildcard) && eventSystem.history == old(eventSystem.history)
    {
      eventSystem.RegisterHandler(eventName, handler);
      registered := registered + {eventName};
    }

    /** `listen_to_all` */
    method ListenToAll(handler: Handler)
      modifies eventSystem
      ensures eventSystem.wildcard == old(eventSystem.wildcard) + [handler]
      ensures eventSystem.handlers == old(eventSystem.handlers) && eventSystem.history == old(eventSystem.history)
    {
      eventSystem.RegisterWildcardHandler(handler);
    }

    /** `stop_listening`: the handler is unregistered and the name forgotten, even if other handlers of it remain */
    method StopListening(eventName: string, handler: Handler)
      modifies this, eventSystem
      ensures registered == old(registered) - {eventName}
      ensures eventSystem.handlers ==
        if eventName in old(eventSystem.handlers) && handler in old(eventSystem.handlers)[eventName]
        then old(eventSystem.handlers)[eventName := RemoveFirst(old(eventSystem.handlers)[eventName], handler)]
        else old(eventSystem.handlers)
      ensures eventSystem.wildcard == old(eventSystem.wildcard) && eventSystem.history == old(eventSystem.history)
    {
      eventSystem.UnregisterHandler(eventName, handler);
      registered := registered - {eventName};
    }

    /** `cleanup`: only the bus's own record is emptied; the handlers stay registered with the system */
    method Cleanup()
      modifies this
      ensures registered == {}
    {
      registered := {};
    }
  }
}
