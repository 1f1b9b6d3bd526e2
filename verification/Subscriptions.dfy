/** The two-way index between event subscriptions and symbols, with its reference counts, and the
    dispatch of events to listeners that may change the index. */
module Subscriptions {

  const EVENT_COUNT: int := 14
  const ORDER_EVENT: int := 4

  /** An event as it is dispatched; `source` counts for orders only. */
  datatype Event = Event(id: int, symbol: string, source: string)

  /** What a listener does when it is called: nothing, or a number of calls of the interface, those that
      process another event with what the listeners called by them do. */
  datatype Action = AddSymbols(owner: SubscriptionData, names: seq<string>)
                  | RemoveSymbols(owner: SubscriptionData, names: seq<string>)
                  | Process(event: Event, script: Script)
  datatype Actions = Stop | Do(action: Action, rest: Actions)

  /** What the listeners called one after the other do. */
  datatype Script = Done | Call(actions: Actions, rest: Script)

  /** A listener of a subscription was called with an event. */
  datatype Delivery = Delivery(owner: SubscriptionData, listener: nat, event: Event)

  function ActionSize(a: Action): nat {
    match a
    case Process(_, script) => 1 + ScriptSize(script)
    case _ => 0
  }

  function ActionsSize(a: Actions): nat {
    match a
    case Stop => 0
    case Do(action, rest) => 1 + ActionSize(action) + ActionsSize(rest)
  }

  function ScriptSize(s: Script): nat {
    match s
    case Done => 0
    case Call(actions, rest) => 1 + ActionsSize(actions) + ScriptSize(rest)
  }

  class SymbolData {
    const name: string
    var refCount: int
    var subscriptions: set<SubscriptionData>
    /** Set when the symbol is deleted; a deleted symbol must not be used any more. */
    ghost var freed: bool

    /** SymbolData::create */
    constructor (name: string)
      ensures this.name == name && refCount == 0 && subscriptions == {} && !freed
    {
      this.name, refCount, subscriptions, freed := name, 0, {}, false;
    }
  }

  class SubscriptionData {
    const eventTypes: set<int>
    const orderSource: seq<string>
    var listeners: set<nat>
    var symbols: map<string, SymbolData>
    /** Set when the subscription is deleted */
    ghost var freed: bool

    constructor (eventTypes: set<int>, listeners: set<nat>, orderSource: seq<string>)
      ensures this.eventTypes == eventTypes && this.listeners == listeners && this.orderSource == orderSource
      ensures symbols == map[] && !freed
    {
      this.eventTypes, this.listeners, this.orderSource := eventTypes, listeners, orderSource;
      symbols, freed := map[], false;
    }
  }

  class EventSubscriptionConnectionContext {
    var symbols: map<string, SymbolData>
    var subscriptions: set<SubscriptionData>
    /** The symbols being dispatched, one for every dispatch in progress */
    ghost var active: multiset<SymbolData>
    ghost var delivered: multiset<Delivery>

    /** The count of a symbol tells how many subscriptions hold it and how many dispatches use it. */
    ghost predicate Sound(s: SymbolData)
      reads this`active, s
    {
      !s.freed && s.refCount == |s.subscriptions| + active[s] > 0
    }

    ghost predicate InTable(s: SymbolData)
      reads this`symbols
    {
      s.name in symbols && symbols[s.name] == s
    }

    ghost function Named(n: string): set<SymbolData>
      reads this`symbols
    {
      if n in symbols then {symbols[n]} else {}
    }

    /** What is in the table is sound, and what is being dispatched is in the table. */
    ghost predicate TableAgrees()
      reads this`symbols, this`active, symbols.Values
    {
      && (forall n :: n in symbols ==> symbols[n].name == n && Sound(symbols[n]))
      && (forall s :: s in active ==> InTable(s))
    }

    /** The same but for the count of one symbol */
    ghost predicate TableAgreesBut(x: SymbolData)
      reads this`symbols, this`active, symbols.Values
    {
      && (forall n :: n in symbols ==> symbols[n].name == n && (symbols[n] != x ==> Sound(symbols[n])))
      && (forall s :: s in active ==> InTable(s))
    }

    /** A subscription knows exactly the symbols that know it. */
    ghost predicate Linked(o: SubscriptionData, n: string)
      reads this`symbols, Named(n), o`symbols
    {
      && (n in o.symbols <==> n in symbols && o in symbols[n].subscriptions)
      && (n in o.symbols ==> o.symbols[n] == symbols[n])
    }

    ghost predicate Valid()
      reads this`symbols, this`active, this`subscriptions, symbols.Values, subscriptions`symbols
    {
      && TableAgrees()
      && (forall n :: n in symbols ==> symbols[n].subscriptions <= subscriptions)
      && (forall o, n :: o in subscriptions ==> Linked(o, n))
    }

    constructor ()
      ensures Valid() && active == multiset{} && delivered == multiset{} && subscriptions == {} && symbols == map[]
    {
      symbols, subscriptions, active, delivered := map[], {}, multiset{}, multiset{};
    }

    /** addSubscription */
    method AddSubscription(data: SubscriptionData)
      requires Valid() && data !in subscriptions && data.symbols == map[]
      modifies this`subscriptions
      ensures Valid() && subscriptions == old(subscriptions) + {data}
    {
      subscriptions := subscriptions + {data};
      forall o, n | o in subscriptions ensures Linked(o, n) {
        assert o in old(subscriptions) ==> old(Linked(o, n));
      }
    }

    /** subscribeSymbol */
    method SubscribeSymbol(symbolName: string, owner: SubscriptionData) returns (res: SymbolData)
      requires TableAgrees()
      modifies this`symbols, Named(symbolName)
      ensures TableAgrees()
      ensures symbols == old(symbols)[symbolName := res]
      ensures if symbolName in old(symbols) then res == old(symbols)[symbolName] else fresh(res)
      ensures res.subscriptions ==
              (if symbolName in old(symbols) then old(symbols[symbolName].subscriptions) else {}) + {owner}
    {
      if symbolName !in symbols {
        res := new SymbolData(symbolName);
        assert active[res] == 0;
        symbols := symbols[symbolName := res];
      } else {
        res := symbols[symbolName];
      }
      if owner in res.subscriptions {
        return;
      }
      res.subscriptions := res.subscriptions + {owner};
      res.refCount := res.refCount + 1;
      forall n | n in symbols ensures symbols[n].name == n && Sound(symbols[n]) {
        assert n != symbolName ==> old(symbols[n].name == n && Sound(symbols[n]));
      }
      forall s | s in active ensures InTable(s) {
        assert old(InTable(s));
      }
    }

    /** removeSymbolData */
    method RemoveSymbolData(symbolData: SymbolData)
      requires InTable(symbolData) && !symbolData.freed
      requires TableAgreesBut(symbolData) && symbolData !in active
      modifies this`symbols, symbolData
      ensures TableAgrees() && symbols == old(symbols) - {symbolData.name}
      ensures symbolData.freed
    {
      if symbolData.name in symbols {
        symbols := symbols - {symbolData.name};
      }
      symbolData.subscriptions := {};
      symbolData.freed := true;
      forall n | n in symbols ensures symbols[n].name == n && Sound(symbols[n]) {
        assert old(symbols[n].name == n && (symbols[n] != symbolData ==> Sound(symbols[n])));
      }
      forall s | s in active ensures InTable(s) {
        assert old(InTable(s));
      }
    }

    /** unsubscribeSymbol; a symbol that was held does not fail to be found. */
    method UnsubscribeSymbol(symbolData: SymbolData, owner: SubscriptionData) returns (res: bool)
      requires TableAgrees() && InTable(symbolData) && owner in symbolData.subscriptions
      modifies this`symbols, symbolData
      ensures TableAgrees()
      ensures res
      ensures if old(|symbolData.subscriptions|) + active[symbolData] > 1
              then symbols == old(symbols) && symbolData.subscriptions == old(symbolData.subscriptions) - {owner}
              else symbols == old(symbols) - {symbolData.name} && old(symbolData.subscriptions) == {owner}
    {
      res := true;
      if |symbolData.subscriptions| == 1 { OnlyMember(symbolData.subscriptions, owner); }
      if owner !in symbolData.subscriptions {
        res := false;
      } else {
        symbolData.subscriptions := symbolData.subscriptions - {owner};
      }
      symbolData.refCount := symbolData.refCount - 1;
      forall n | n in symbols ensures symbols[n].name == n && (symbols[n] != symbolData ==> Sound(symbols[n])) {
        assert old(symbols[n].name == n && Sound(symbols[n]));
      }
      if symbolData.refCount == 0 {
        RemoveSymbolData(symbolData);
      }
    }

    /** Different names have different symbols. */
    lemma OwnObjects(name: string)
      requires TableAgrees()
      ensures name in symbols ==> InTable(symbols[name]) && symbols[name].name == name
      ensures forall n :: n in symbols && n != name ==> symbols[n] !in Named(name)
    {}

    /** The loop body of dx_add_symbols */
    method AddSymbol(owner: SubscriptionData, name: string)
      requires Valid() && owner in subscriptions
      modifies this`symbols, Named(name), owner`symbols
      ensures Valid() && fresh(symbols.Values - old(symbols.Values))
      ensures owner.symbols.Keys == old(owner.symbols.Keys) + {name}
    {
      hide TableAgrees, InTable, Sound;
      if name in owner.symbols {
        return;
      }
      OwnObjects(name);
      assert Linked(owner, name);
      var symbolData := SubscribeSymbol(name, owner);
      assert symbols.Values <= old(symbols.Values) + {symbolData};
      owner.symbols := owner.symbols[name := symbolData];
      forall n | n in symbols ensures symbols[n].subscriptions <= subscriptions {
        assert n in old(symbols) ==> old(symbols[n].subscriptions) <= subscriptions;
        assert n != name ==> symbols[n].subscriptions == old(symbols[n].subscriptions);
      }
      forall o, n | o in subscriptions && n != name ensures Linked(o, n) {
        assert old(Linked(o, n));
        assert n in symbols ==> symbols[n].subscriptions == old(symbols[n].subscriptions);
      }
      forall o | o in subscriptions ensures Linked(o, name) {
        assert old(Linked(o, name));
        assert symbols[name] == symbolData;
      }
      assert forall o, n :: o in subscriptions ==> Linked(o, n);
    }

    /** The loop body of dx_remove_symbols */
    method RemoveSymbol(owner: SubscriptionData, name: string) returns (ok: bool)
      requires Valid() && owner in subscriptions
      modifies this`symbols, Named(name), owner`symbols
      ensures Valid() && symbols.Values <= old(symbols.Values)
      ensures ok && owner.symbols.Keys == old(owner.symbols.Keys) - {name}
    {
      hide TableAgrees, InTable;
      if name !in owner.symbols {
        return true;
      }
      OwnObjects(name);
      assert Linked(owner, name);
      ok := UnsubscribeSymbol(owner.symbols[name], owner);
      owner.symbols := owner.symbols - {name};
      forall o, n | o in subscriptions ensures Linked(o, n) {
        assert old(Linked(o, n));
      }
    }

    /** dx_add_symbols; empty names are passed over. */
    method AddSymbols(owner: SubscriptionData, names: seq<string>)
      requires Valid() && owner in subscriptions
      modifies this`symbols, symbols.Values, owner`symbols
      ensures Valid() && fresh(symbols.Values - old(symbols.Values))
      ensures owner.symbols.Keys == old(owner.symbols.Keys) + NotEmpty(names)
    {
      hide TableAgrees, Linked;
      for i := 0 to |names|
        invariant Valid() && fresh(symbols.Values - old(symbols.Values))
        invariant owner.symbols.Keys == old(owner.symbols.Keys) + NotEmpty(names[..i])
      {
        NotEmptyStep(names, i);
        if names[i] == "" {
          continue;
        }
        AddSymbol(owner, names[i]);
      }
      assert names[..|names|] == names;
    }

    /** dx_remove_symbols; names that are empty or not held are passed over, and nothing fails. */
    method RemoveSymbols(owner: SubscriptionData, names: seq<string>) returns (ok: bool)
      requires Valid() && owner in subscriptions
      modifies this`symbols, symbols.Values, owner`symbols
      ensures Valid() && symbols.Values <= old(symbols.Values)
      ensures ok && owner.symbols.Keys == old(owner.symbols.Keys) - NotEmpty(names)
    {
      hide TableAgrees, Linked;
      for i := 0 to |names|
        invariant Valid() && symbols.Values <= old(symbols.Values)
        invariant owner.symbols.Keys == old(owner.symbols.Keys) - NotEmpty(names[..i])
      {
        NotEmptyStep(names, i);
        if names[i] == "" {
          continue;
        }
        ok := RemoveSymbol(owner, names[i]);
        if !ok {
          return false;
        }
      }
      assert names[..|names|] == names;
      ok := true;
    }

    /** The links while a subscription is being closed, `left` being the names it still has to leave */
    ghost predicate Closing(owner: SubscriptionData, left: set<string>)
      reads this`symbols, this`subscriptions, symbols.Values, subscriptions`symbols, owner`symbols
    {
      && (forall n :: n in symbols ==> symbols[n].subscriptions <= subscriptions)
      && (forall o, n :: o in subscriptions && o != owner ==> Linked(o, n))
      && (forall n :: n in left <==> n in symbols && owner in symbols[n].subscriptions)
      && (forall n :: n in left ==> n in owner.symbols && owner.symbols[n] == symbols[n])
    }

    /** One round of the loop of closeEventSubscription */
    method LeaveSymbol(owner: SubscriptionData, n: string, ghost left: set<string>) returns (res: bool)
      requires TableAgrees() && Closing(owner, left) && n in left && owner in subscriptions
      modifies this`symbols, Named(n)
      ensures TableAgrees() && Closing(owner, left - {n})
      ensures res && symbols.Values <= old(symbols.Values)
    {
      hide TableAgrees, InTable, Valid, Sound, TableAgreesBut;
      OwnObjects(n);
      res := UnsubscribeSymbol(owner.symbols[n], owner);
      forall o, x | o in subscriptions && o != owner ensures Linked(o, x) {
        assert old(Linked(o, x));
      }
    }

    /** closeEventSubscription, called outside of listeners; it does not fail. */
    method CloseSubscription(owner: SubscriptionData, removeFromContext: bool) returns (res: bool)
      requires Valid() && owner in subscriptions
      modifies this`symbols, this`subscriptions, symbols.Values, owner
      ensures Valid() && symbols.Values <= old(symbols.Values)
      ensures res && owner.symbols == map[] && owner.listeners == {} && owner.freed
      ensures subscriptions == if removeFromContext then old(subscriptions) - {owner} else old(subscriptions)
    {
      hide TableAgrees, Linked, Closing;
      res := true;
      var left := owner.symbols.Keys;
      StartsClosing(owner);
      while left != {}
        invariant TableAgrees() && Closing(owner, left) && subscriptions == old(subscriptions)
        invariant res && symbols.Values <= old(symbols.Values)
        decreases left
      {
        var n :| n in left;
        ClosingNames(owner, left, n);
        var ok := LeaveSymbol(owner, n, left);
        left := left - {n};
        res := ok && res;
      }
      ClearSymbols(owner, left);
      owner.listeners := {};
      if removeFromContext {
        RemoveSubscription(owner);
      }
      owner.freed := true;
    }

    lemma ClosingNames(owner: SubscriptionData, left: set<string>, n: string)
      requires Closing(owner, left) && n in left
      ensures n in symbols
    {}

    lemma StartsClosing(owner: SubscriptionData)
      requires Valid() && owner in subscriptions
      ensures Closing(owner, owner.symbols.Keys)
    {
      forall n ensures n in owner.symbols.Keys <==> n in symbols && owner in symbols[n].subscriptions {
        assert Linked(owner, n);
      }
      forall n | n in owner.symbols.Keys ensures owner.symbols[n] == symbols[n] {
        assert Linked(owner, n);
      }
    }

    /** The end of closeEventSubscription, with no names left */
    method ClearSymbols(owner: SubscriptionData, ghost left: set<string>)
      requires TableAgrees() && Closing(owner, left) && left == {}
      modifies owner`symbols
      ensures Valid() && owner.symbols == map[]
    {
      hide TableAgrees;
      owner.symbols := map[];
      forall o, n | o in subscriptions ensures Linked(o, n) {
        assert old(o != owner ==> Linked(o, n));
        assert n !in left;
      }
    }

    /** removeSubscription, of one that holds no symbols */
    method RemoveSubscription(data: SubscriptionData)
      requires Valid() && data.symbols == map[]
      modifies this`subscriptions
      ensures Valid() && subscriptions == old(subscriptions) - {data}
    {
      forall n | n in symbols ensures symbols[n].subscriptions <= subscriptions - {data} {
        assert data in subscriptions ==> Linked(data, n);
      }
      subscriptions := subscriptions - {data};
      forall o, n | o in subscriptions ensures Linked(o, n) {
        assert old(Linked(o, n));
      }
    }

    /** The subscriptions that hold a symbol */
    ghost function Holders(n: string): set<SubscriptionData>
      reads this`subscriptions, subscriptions`symbols
    {
      set o | o in subscriptions && n in o.symbols
    }

    /** No subscription has changed what it holds. */
    twostate predicate Undisturbed()
      reads this`subscriptions, subscriptions`symbols
    {
      subscriptions == old(subscriptions) && forall o :: o in subscriptions ==> o.symbols == old(o.symbols)
    }

    /** One listener is called and does what the script says; what is left of the script is returned. */
    method CallListener(o: SubscriptionData, l: nat, e: Event, script: Script) returns (left: Script)
      requires Valid() && o in subscriptions
      modifies this`symbols, this`active, this`delivered, symbols.Values, subscriptions`symbols
      ensures Valid() && fresh(symbols.Values - old(symbols.Values))
      ensures active == old(active) && delivered >= old(delivered)
      ensures ScriptSize(left) <= ScriptSize(script)
      ensures delivered >= old(delivered) + multiset{Delivery(o, l, e)}
      ensures script.Done? ==> left.Done? && Undisturbed() && delivered == old(delivered) + multiset{Delivery(o, l, e)}
      decreases ScriptSize(script), 1
    {
      hide TableAgrees, Linked;
      left := script;
      delivered := delivered + multiset{Delivery(o, l, e)};
      if left.Call? {
        RunActions(left.actions);
        left := left.rest;
      }
    }

    /** dx_call_subscr_listeners: all listeners are called or none, by whether the subscription holds the
        symbol at that time, whatever the listeners then do. */
    method CallListeners(o: SubscriptionData, e: Event, script: Script) returns (left: Script)
      requires Valid() && o in subscriptions
      modifies this`symbols, this`active, this`delivered, symbols.Values, subscriptions`symbols
      ensures Valid() && fresh(symbols.Values - old(symbols.Values))
      ensures active == old(active) && delivered >= old(delivered)
      ensures ScriptSize(left) <= ScriptSize(script)
      ensures script.Done? ==> left.Done? && Undisturbed()
      ensures script.Done? ==>
                delivered == old(delivered) +
                             if e.symbol in o.symbols then multiset(ToListeners(o, e, o.listeners)) else multiset{}
      ensures e.symbol in old(o.symbols) ==> delivered >= old(delivered) + multiset(ToListeners(o, e, o.listeners))
      ensures e.symbol !in old(o.symbols) ==> left == script && Undisturbed() && delivered == old(delivered)
      decreases ScriptSize(script), 2
    {
      hide Valid, ToListeners;
      left := script;
      if e.symbol !in o.symbols {
        return;
      }
      var todo := o.listeners;
      NoListeners(o, e, todo);
      while todo != {}
        invariant Valid() && fresh(symbols.Values - old(symbols.Values)) && todo <= o.listeners
        invariant active == old(active)
        invariant ScriptSize(left) <= ScriptSize(script)
        invariant script.Done? ==> left.Done? && Undisturbed()
        invariant delivered >= old(delivered) + multiset(ToListeners(o, e, o.listeners - todo))
        invariant script.Done? ==> delivered == old(delivered) + multiset(ToListeners(o, e, o.listeners - todo))
        decreases todo
      {
        var l :| l in todo;
        OneMoreListener(o, e, o.listeners - todo, l);
        assert o.listeners - todo + {l} == o.listeners - (todo - {l});
        todo := todo - {l};
        left := CallListener(o, l, e, left);
      }
      assert o.listeners - todo == o.listeners;
    }

    /** What a listener does while it is called. */
    method RunActions(actions: Actions)
      requires Valid()
      modifies this`symbols, this`active, this`delivered, symbols.Values, subscriptions`symbols
      ensures Valid() && fresh(symbols.Values - old(symbols.Values))
      ensures active == old(active) && delivered >= old(delivered)
      decreases ActionsSize(actions), 0
    {
      if actions.Do? {
        RunAction(actions.action);
        RunActions(actions.rest);
      }
    }

    method RunAction(action: Action)
      requires Valid()
      modifies this`symbols, this`active, this`delivered, symbols.Values, subscriptions`symbols
      ensures Valid() && fresh(symbols.Values - old(symbols.Values))
      ensures active == old(active) && delivered >= old(delivered)
      decreases ActionSize(action), 8
    {
      match action
      case AddSymbols(owner, names) =>
        if owner in subscriptions {
          AddSymbols(owner, names);
        }
      case RemoveSymbols(owner, names) =>
        if owner in subscriptions {
          var ok := RemoveSymbols(owner, names);
        }
      case Process(e, script) =>
        var ok, left := ProcessEvent(e, script);
    }

    lemma SubscriptionsAre(n: string)
      requires Valid()
      ensures n in symbols ==> InTable(symbols[n]) && symbols[n].subscriptions == Holders(n)
      ensures n !in symbols ==> Holders(n) == {}
    {
      assert forall o :: o in subscriptions ==> Linked(o, n);
    }

    /** In every state that can be reached the count of a symbol is the number of subscriptions that hold
        it and of dispatches in progress, and it is in the table exactly while there are any. */
    lemma CountIsUse(s: SymbolData)
      requires Valid()
      ensures InTable(s) ==> s.refCount == |Holders(s.name)| + active[s] > 0 && !s.freed
      ensures s.name in symbols <==> Holders(s.name) != {} || exists x :: x in active && x.name == s.name
    {
      SubscriptionsAre(s.name);
      if s.name in symbols {
        var x := symbols[s.name];
        assert Sound(x) && x.name == s.name;
      }
    }

    /** The start of pass_event_data_to_listeners */
    method Retain(s: SymbolData)
      requires Valid() && InTable(s)
      modifies this`active, s`refCount
      ensures Valid() && active == old(active) + multiset{s}
    {
      s.refCount := s.refCount + 1;
      active := active + multiset{s};
      forall n | n in symbols ensures symbols[n].name == n && Sound(symbols[n]) {
        assert old(symbols[n].name == n && Sound(symbols[n]));
      }
      forall o, n | o in subscriptions ensures Linked(o, n) {
        assert old(Linked(o, n));
      }
    }

    /** The end of pass_event_data_to_listeners: a symbol that nobody holds any more goes. */
    method Release(s: SymbolData)
      requires TableAgrees() && s in active
      modifies this`symbols, this`active, s
      ensures TableAgrees() && active == old(active) - multiset{s}
      ensures if old(s.subscriptions) == {} && active[s] == 0
              then symbols == old(symbols) - {s.name}
              else symbols == old(symbols) && s.subscriptions == old(s.subscriptions)
    {
      assert InTable(s);
      s.refCount := s.refCount - 1;
      active := active - multiset{s};
      forall n | n in symbols ensures symbols[n].name == n && (symbols[n] != s ==> Sound(symbols[n])) {
        assert old(symbols[n].name == n && Sound(symbols[n]));
      }
      assert forall x :: x in active ==> old(InTable(x));
      if s.refCount == 0 {
        RemoveSymbolData(s);
      }
    }

    method ReleaseHeld(s: SymbolData)
      requires Valid() && s in active
      modifies this`symbols, this`active, s
      ensures Valid() && active == old(active) - multiset{s} && symbols.Values <= old(symbols.Values)
    {
      hide Sound;
      assert InTable(s);
      OwnObjects(s.name);
      Release(s);
      hide TableAgrees;
      forall o, n | o in subscriptions ensures Linked(o, n) {
        assert old(Linked(o, n));
      }
    }

    /** One round of pass_event_data_to_listeners */
    method Serve(o: SubscriptionData, e: Event, script: Script) returns (left: Script)
      requires Valid() && o in subscriptions
      modifies this`symbols, this`active, this`delivered, symbols.Values, subscriptions`symbols
      ensures Valid() && fresh(symbols.Values - old(symbols.Values))
      ensures active == old(active) && delivered >= old(delivered)
      ensures ScriptSize(left) <= ScriptSize(script)
      ensures script.Done? ==> left.Done? && Undisturbed()
      ensures script.Done? ==>
                delivered == old(delivered) +
                             if Takes(o, e) && e.symbol in old(o.symbols) then multiset(ToListeners(o, e, o.listeners))
                             else multiset{}
      ensures if Takes(o, e) && e.symbol in old(o.symbols)
              then delivered >= old(delivered) + multiset(ToListeners(o, e, o.listeners))
              else left == script && Undisturbed() && delivered == old(delivered)
      decreases ScriptSize(script), 3
    {
      hide Valid, ToListeners;
      left := script;
      if e.id !in o.eventTypes {
        return;
      }
      if e.id == ORDER_EVENT && |o.orderSource| > 0 {
        if e.source in o.orderSource {
          left := CallListeners(o, e, left);
        }
      } else {
        left := CallListeners(o, e, left);
      }
    }

    /** The same round, for the calls made so far */
    method ServeNext(o: SubscriptionData, e: Event, script: Script,
                     ghost holders: set<SubscriptionData>, ghost todo: set<SubscriptionData>)
      returns (left: Script, ghost made: multiset<Delivery>)
      requires Valid() && o in todo && todo <= subscriptions
      modifies this`symbols, this`active, this`delivered, symbols.Values, subscriptions`symbols
      ensures Valid() && fresh(symbols.Values - old(symbols.Values))
      ensures active == old(active) && delivered >= old(delivered)
      ensures ScriptSize(left) <= ScriptSize(script)
      ensures script.Done? ==> left.Done? && Undisturbed()
      ensures script.Done? && (o in holders <==> e.symbol in old(o.symbols)) ==>
                && delivered == old(delivered) + made
                && multiset(Calls(holders - (todo - {o}), e)) == old(multiset(Calls(holders - todo, e))) + made
      decreases ScriptSize(script), 4
    {
      hide Valid, Calls, ToListeners;
      MoreCalls(holders, todo, o, e);
      made := if o in holders && Takes(o, e) then multiset(ToListeners(o, e, o.listeners)) else multiset{};
      left := Serve(o, e, script);
    }

    /** The loop of pass_event_data_to_listeners, over a copy of the subscriptions of its symbol */
    method ServeAll(subs: set<SubscriptionData>, e: Event, script: Script) returns (left: Script)
      requires Valid() && subs <= subscriptions
      modifies this`symbols, this`active, this`delivered, symbols.Values, subscriptions`symbols
      ensures Valid() && fresh(symbols.Values - old(symbols.Values))
      ensures active == old(active) && delivered >= old(delivered)
      ensures ScriptSize(left) <= ScriptSize(script)
      ensures script.Done? ==> left.Done? && Undisturbed()
      ensures script.Done? ==>
                delivered == old(delivered) + multiset(Calls(subs * old(Holders(e.symbol)), e))
      decreases ScriptSize(script), 5
    {
      hide Valid, Calls, ToListeners;
      ghost var holders := subs * Holders(e.symbol);
      left := script;
      var todo := subs;
      NoCalls(e, holders - todo);
      while todo != {}
        invariant Valid() && fresh(symbols.Values - old(symbols.Values)) && todo <= subscriptions
        invariant active == old(active) && delivered >= old(delivered)
        invariant ScriptSize(left) <= ScriptSize(script)
        invariant script.Done? ==> left.Done? && Undisturbed()
        invariant script.Done? ==> delivered == old(delivered) + multiset(Calls(holders - todo, e))
        decreases todo
      {
        var o :| o in todo;
        assert script.Done? ==> (o in holders <==> e.symbol in o.symbols);
        ghost var made;
        left, made := ServeNext(o, e, left, holders, todo);
        todo := todo - {o};
      }
      assert holders - todo == holders;
    }

    /** pass_event_data_to_listeners */
    method PassEvent(s: SymbolData, e: Event, script: Script) returns (left: Script)
      requires Valid() && InTable(s)
      modifies this`symbols, this`active, this`delivered, symbols.Values, subscriptions`symbols
      ensures Valid() && fresh(symbols.Values - old(symbols.Values))
      ensures active == old(active) && delivered >= old(delivered)
      ensures ScriptSize(left) <= ScriptSize(script)
      ensures script.Done? ==> left.Done? && Undisturbed()
      ensures script.Done? ==>
                delivered == old(delivered) + multiset(Calls(old(s.subscriptions * Holders(e.symbol)), e))
      decreases ScriptSize(script), 6
    {
      hide TableAgrees, Sound, Linked, Calls, ToListeners;
      ghost var subs, holders := s.subscriptions, Holders(e.symbol);
      Retain(s);
      assert s.subscriptions == subs && Holders(e.symbol) == holders;
      left := ServeAll(s.subscriptions, e, script);
      ReleaseHeld(s);
    }

    /** dx_process_event_data: the symbol's subscriptions are served, then those of the wildcard. */
    method ProcessEvent(e: Event, script: Script) returns (ok: bool, left: Script)
      requires Valid()
      modifies this`symbols, this`active, this`delivered, symbols.Values, subscriptions`symbols
      ensures Valid() && fresh(symbols.Values - old(symbols.Values))
      ensures active == old(active) && delivered >= old(delivered)
      ensures ok <==> 0 <= e.id < 14
      ensures ScriptSize(left) <= ScriptSize(script)
      ensures script.Done? ==> left.Done? && Undisturbed()
      ensures script.Done? ==>
                delivered == old(delivered) +
                             if ok then multiset(Calls(old(Holders(e.symbol)), e)) +
                                        multiset(Calls(old(Holders("*") * Holders(e.symbol)), e))
                             else multiset{}
      decreases ScriptSize(script), 7
    {
      hide TableAgrees, Calls, Linked;
      left := script;
      ok := 0 <= e.id < EVENT_COUNT;
      if !ok {
        return;
      }
      NoCalls(e, {});
      assert Holders(e.symbol) * Holders(e.symbol) == Holders(e.symbol);
      assert {} * Holders(e.symbol) == {};
      SubscriptionsAre(e.symbol);
      if e.symbol in symbols {
        left := PassEvent(symbols[e.symbol], e, left);
      }
      SubscriptionsAre("*");
      assert script.Done? ==> Holders(e.symbol) == old(Holders(e.symbol)) && Holders("*") == old(Holders("*"));
      if "*" in symbols {
        left := PassEvent(symbols["*"], e, left);
      }
    }
  }

  // ---------- the wildcard ----------

  /** A context with one subscription, which wants events like this one and holds these names. */
  method SubscribeTo(names: seq<string>, listeners: set<nat>, e: Event)
    returns (context: EventSubscriptionConnectionContext, o: SubscriptionData)
    ensures fresh(context) && fresh(o) && fresh(context.symbols.Values) && context.Valid()
    ensures context.subscriptions == {o} && context.delivered == multiset{}
    ensures o.listeners == listeners && Takes(o, e) && o.symbols.Keys == NotEmpty(names)
  {
    context := new EventSubscriptionConnectionContext();
    o := new SubscriptionData({e.id}, listeners, []);
    context.AddSubscription(o);
    context.AddSymbols(o, names);
  }

  /** A subscription to the wildcard alone wants the event and hears nothing. */
  method WildcardAlone(listeners: set<nat>, e: Event)
    returns (ok: bool, context: EventSubscriptionConnectionContext, o: SubscriptionData)
    requires 0 <= e.id < EVENT_COUNT && e.symbol != "*"
    ensures ok && o in context.subscriptions && o.symbols.Keys == {"*"} && o.listeners == listeners && Takes(o, e)
    ensures context.delivered == multiset{}
  {
    var left;
    context, o := SubscribeTo(["*"], listeners, e);
    assert context.Holders(e.symbol) == {};
    NoCalls(e, {});
    ok, left := context.ProcessEvent(e, Done);
  }

  /** A subscription to the wildcard and the symbol hears everything twice. */
  method WildcardTwice(listeners: set<nat>, e: Event)
    returns (ok: bool, context: EventSubscriptionConnectionContext, o: SubscriptionData)
    requires 0 <= e.id < EVENT_COUNT && e.symbol != "*" && e.symbol != ""
    ensures ok && o in context.subscriptions && o.symbols.Keys == {"*", e.symbol} && o.listeners == listeners
    ensures forall d :: context.delivered[d] == if d in ToListeners(o, e, listeners) then 2 else 0
  {
    var left;
    context, o := SubscribeTo(["*", e.symbol], listeners, e);
    assert context.Holders(e.symbol) == context.Holders("*") * context.Holders(e.symbol) == {o};
    ok, left := context.ProcessEvent(e, Done);
  }

  // ---------- event types and order sources ----------

  /** A context with one subscription to orders of one source, to one more event type and to one symbol */
  method SubscribeToOrders(listeners: set<nat>, source: string, other: int, symbol: string)
    returns (context: EventSubscriptionConnectionContext, o: SubscriptionData)
    requires symbol != "" && symbol != "*"
    ensures fresh(context) && fresh(o) && fresh(context.symbols.Values) && context.Valid()
    ensures context.subscriptions == {o} && context.delivered == multiset{} && o.listeners == listeners
    ensures o.eventTypes == {4, other} && o.orderSource == [source] && o.symbols.Keys == {symbol}
  {
    context := new EventSubscriptionConnectionContext();
    o := new SubscriptionData({4, other}, listeners, [source]);
    context.AddSubscription(o);
    context.AddSymbols(o, [symbol]);
  }

  lemma HeldAlone(context: EventSubscriptionConnectionContext, o: SubscriptionData, symbol: string)
    requires context.subscriptions == {o} && o.symbols.Keys == {symbol} && symbol != "*"
    ensures context.Holders(symbol) == {o} && context.Holders("*") == {}
  {}

  /** An order of a source that is not listed reaches nobody. */
  method OtherSourceUnheard(listeners: set<nat>, source: string, other: string, symbol: string)
    returns (ok: bool, context: EventSubscriptionConnectionContext, o: SubscriptionData)
    requires symbol != "" && symbol != "*" && source != other
    ensures ok && context.subscriptions == {o} && o.listeners == listeners && o.symbols.Keys == {symbol}
    ensures o.eventTypes == {4} && o.orderSource == [source]
    ensures context.delivered == multiset{}
  {
    var left;
    context, o := SubscribeToOrders(listeners, source, 4, symbol);
    HeldAlone(context, o, symbol);
    ok, left := context.ProcessEvent(Event(4, symbol, other), Done);
  }

  /** An order of a listed source reaches each listener once. */
  method ListedSourceHeard(listeners: set<nat>, source: string, symbol: string)
    returns (ok: bool, context: EventSubscriptionConnectionContext, o: SubscriptionData)
    requires symbol != "" && symbol != "*"
    ensures ok && context.subscriptions == {o} && o.listeners == listeners && o.symbols.Keys == {symbol}
    ensures o.eventTypes == {4} && o.orderSource == [source]
    ensures context.delivered == multiset(set l | l in listeners :: Delivery(o, l, Event(4, symbol, source)))
  {
    var left;
    context, o := SubscribeToOrders(listeners, source, 4, symbol);
    HeldAlone(context, o, symbol);
    ok, left := context.ProcessEvent(Event(4, symbol, source), Done);
  }

  /** An event of another type that is listed reaches each listener once, whatever its source. */
  method OtherTypeHeard(listeners: set<nat>, source: string, e: Event)
    returns (ok: bool, context: EventSubscriptionConnectionContext, o: SubscriptionData)
    requires 0 <= e.id < 14 && e.id != 4 && e.symbol != "" && e.symbol != "*"
    ensures ok && context.subscriptions == {o} && o.listeners == listeners && o.symbols.Keys == {e.symbol}
    ensures o.eventTypes == {4, e.id} && o.orderSource == [source]
    ensures context.delivered == multiset(set l | l in listeners :: Delivery(o, l, e))
  {
    var left;
    context, o := SubscribeToOrders(listeners, source, e.id, e.symbol);
    HeldAlone(context, o, e.symbol);
    ok, left := context.ProcessEvent(e, Done);
  }

  /** An event of a type that is not listed reaches nobody. */
  method OtherTypeUnheard(listeners: set<nat>, source: string, e: Event)
    returns (ok: bool, context: EventSubscriptionConnectionContext, o: SubscriptionData)
    requires 0 <= e.id < 14 && e.id != 4 && e.symbol != "" && e.symbol != "*"
    ensures ok && context.subscriptions == {o} && o.listeners == listeners && o.symbols.Keys == {e.symbol}
    ensures o.eventTypes == {4} && o.orderSource == [source]
    ensures context.delivered == multiset{}
  {
    var left;
    context, o := SubscribeToOrders(listeners, source, 4, e.symbol);
    HeldAlone(context, o, e.symbol);
    ok, left := context.ProcessEvent(e, Done);
  }

  /** Every listener of a subscription called once */
  function ToListeners(o: SubscriptionData, e: Event, listeners: set<nat>): set<Delivery> {
    set l | l in listeners :: Delivery(o, l, e)
  }

  /** A subscription is called for the event types it lists; orders, which have type number 4, also need
      a source that it lists, unless it lists none. */
  predicate Takes(o: SubscriptionData, e: Event) {
    e.id in o.eventTypes && (e.id != 4 || o.orderSource == [] || e.source in o.orderSource)
  }

  /** The calls an event makes of the listeners of these subscriptions, as far as they want it */
  ghost function Calls(subs: set<SubscriptionData>, e: Event): set<Delivery>
    reads subs`listeners
  {
    set o, l | o in subs && Takes(o, e) && l in o.listeners :: Delivery(o, l, e)
  }

  lemma NoCalls(e: Event, none: set<SubscriptionData>)
    ensures none == {} ==> multiset(Calls(none, e)) == multiset{}
  {}

  lemma MoreCalls(holders: set<SubscriptionData>, todo: set<SubscriptionData>, o: SubscriptionData, e: Event)
    requires o in todo
    ensures multiset(Calls(holders - (todo - {o}), e)) ==
            multiset(Calls(holders - todo, e)) +
            if o in holders && Takes(o, e) then multiset(ToListeners(o, e, o.listeners)) else multiset{}
  {
    var more := if o in holders && Takes(o, e) then ToListeners(o, e, o.listeners) else {};
    assert Calls(holders - (todo - {o}), e) == Calls(holders - todo, e) + more;
    assert Calls(holders - todo, e) !! more;
  }

  lemma NoListeners(o: SubscriptionData, e: Event, all: set<nat>)
    ensures multiset(ToListeners(o, e, all - all)) == multiset{}
  {
    assert ToListeners(o, e, all - all) == {};
  }

  lemma OneMoreListener(o: SubscriptionData, e: Event, called: set<nat>, l: nat)
    requires l !in called
    ensures multiset(ToListeners(o, e, called + {l})) ==
            multiset(ToListeners(o, e, called)) + multiset{Delivery(o, l, e)}
  {
    assert ToListeners(o, e, called + {l}) == ToListeners(o, e, called) + {Delivery(o, l, e)};
  }

  function NotEmpty(names: seq<string>): set<string> {
    set n | n in names && n != ""
  }

  lemma NotEmptyStep(names: seq<string>, i: nat)
    requires i < |names|
    ensures NotEmpty(names[..i + 1]) == NotEmpty(names[..i]) + if names[i] == "" then {} else {names[i]}
  {
    assert names[..i + 1] == names[..i] + [names[i]];
  }

  lemma OnlyMember<T>(s: set<T>, x: T)
    requires |s| == 1 && x in s
    ensures s == {x}
  {
    assert |s - {x}| == 0;
  }
}
