/** The first version of the client library: several listeners for each command, and a subscription
    of the process while it has any. */
module Registry {
  import opened Wire
  import opened Broker
  import opened Client

  type Listener = nat

  type Listeners = map<Command, seq<Listener>>

  datatype Call = Join(command: Command, listener: Listener) | Leave(command: Command, listener: Listener)

  function Of(t: Listeners, c: Command): seq<Listener> {
    if c in t then t[c] else []
  }

  /** Without the first occurrence. */
  function Without(s: seq<Listener>, x: Listener): seq<Listener> {
    if s == [] then [] else if s[0] == x then s[1..] else [s[0]] + Without(s[1..], x)
  }

  function Change(t: Listeners, call: Call): (Listeners, seq<Up>) {
    match call
    case Join(c, x) => if c in t then (t[c := t[c] + [x]], []) else (t[c := [x]], [AskSubscribe(c)])
    case Leave(c, x) =>
      if c !in t || x !in t[c] then (t, [])
      else
        var rest := Without(t[c], x);
        if rest == [] then (t - {c}, [AskUnsubscribe(c)]) else (t[c := rest], [])
  }

  function Made(t: Listeners, calls: seq<Call>): (Listeners, seq<Up>) {
    if calls == [] then (t, [])
    else
      var (u, sent) := Made(t, calls[..|calls| - 1]);
      var (r, more) := Change(u, calls[|calls| - 1]);
      (r, sent + more)
  }

  lemma MadeOne(t: Listeners, calls: seq<Call>, call: Call)
    ensures var (u, sent) := Made(t, calls); var (r, more) := Change(u, call);
            Made(t, calls + [call]) == (r, sent + more)
  {
    assert (calls + [call])[..|calls|] == calls;
  }

  function Joins(commands: seq<Command>, x: Listener): seq<Call> {
    seq(|commands|, i requires 0 <= i < |commands| => Join(commands[i], x))
  }

  function Leaves(commands: seq<Command>, x: Listener): seq<Call> {
    seq(|commands|, i requires 0 <= i < |commands| => Leave(commands[i], x))
  }

  class CpuComImpl {
    var listeners: Listeners
    var valid: bool
    var wire: seq<Up>
    var called: seq<(Listener, Command, seq<byte>)>

    constructor (connected: bool)
      ensures listeners == map[] && valid == connected && wire == [] && called == []
    {
      listeners, valid, wire, called := map[], connected, [], [];
    }

    method Subscribe(command: Command, listener: Listener)
      modifies `listeners, `wire
      ensures listeners == Change(old(listeners), Join(command, listener)).0
      ensures wire == old(wire) + if valid then Change(old(listeners), Join(command, listener)).1 else []
    {
      if command !in listeners {
        listeners := listeners[command := [listener]];
        if valid {
          wire := wire + [AskSubscribe(command)];
        }
      } else {
        listeners := listeners[command := listeners[command] + [listener]];
      }
    }

    method Unsubscribe(command: Command, listener: Listener)
      modifies `listeners, `wire
      ensures listeners == Change(old(listeners), Leave(command, listener)).0
      ensures wire == old(wire) + if valid then Change(old(listeners), Leave(command, listener)).1 else []
    {
      var unsubscribe := false;
      if command in listeners {
        var list := listeners[command];
        var i := 0;
        while i < |list| && list[i] != listener
          invariant i <= |list| && listener !in list[..i]
          invariant Without(list, listener) == list[..i] + Without(list[i..], listener)
        {
          assert list[i..][1..] == list[i + 1..];
          assert list[..i] + ([list[i]] + Without(list[i + 1..], listener)) == list[..i + 1] + Without(list[i + 1..], listener);
          i := i + 1;
        }
        if i < |list| {
          assert list[i..][1..] == list[i + 1..];
          list := list[..i] + list[i + 1..];
          listeners := listeners[command := list];
          if list == [] {
            listeners := listeners - {command};
            unsubscribe := true;
          }
        }
      }
      if unsubscribe && valid {
        wire := wire + [AskUnsubscribe(command)];
      }
    }

    method SubscribeAll(commands: seq<Command>, listener: Listener)
      modifies `listeners, `wire
      ensures listeners == Made(old(listeners), Joins(commands, listener)).0
      ensures wire == old(wire) + if valid then Made(old(listeners), Joins(commands, listener)).1 else []
    {
      assert wire + [] == wire;
      for i := 0 to |commands|
        invariant listeners == Made(old(listeners), Joins(commands[..i], listener)).0
        invariant wire == old(wire) + if valid then Made(old(listeners), Joins(commands[..i], listener)).1 else []
      {
        MadeOne(old(listeners), Joins(commands[..i], listener), Join(commands[i], listener));
        assert Joins(commands[..i + 1], listener) == Joins(commands[..i], listener) + [Join(commands[i], listener)];
        Subscribe(commands[i], listener);
      }
      assert commands[..|commands|] == commands;
    }

    method UnsubscribeAll(commands: seq<Command>, listener: Listener)
      modifies `listeners, `wire
      ensures listeners == Made(old(listeners), Leaves(commands, listener)).0
      ensures wire == old(wire) + if valid then Made(old(listeners), Leaves(commands, listener)).1 else []
    {
      assert wire + [] == wire;
      for i := 0 to |commands|
        invariant listeners == Made(old(listeners), Leaves(commands[..i], listener)).0
        invariant wire == old(wire) + if valid then Made(old(listeners), Leaves(commands[..i], listener)).1 else []
      {
        MadeOne(old(listeners), Leaves(commands[..i], listener), Leave(commands[i], listener));
        assert Leaves(commands[..i + 1], listener) == Leaves(commands[..i], listener) + [Leave(commands[i], listener)];
        Unsubscribe(commands[i], listener);
      }
      assert commands[..|commands|] == commands;
    }

    /** Every listener of the command is called, in order, once for each time it is in the list. */
    method OnNotification(command: Command, data: seq<byte>)
      modifies `called
      ensures |called| == |old(called)| + |Of(listeners, command)| && old(called) <= called
      ensures forall i :: 0 <= i < |Of(listeners, command)| ==>
                called[|old(called)| + i] == (Of(listeners, command)[i], command, data)
    {
      var list := [];
      if command in listeners {
        list := listeners[command];
      }
      for i := 0 to |list|
        invariant |called| == |old(called)| + i && old(called) <= called
        invariant forall j :: 0 <= j < i ==> called[|old(called)| + j] == (list[j], command, data)
      {
        called := called + [(list[i], command, data)];
      }
    }
  }

  /** What a history of calls leaves, starting with no listener. */
  function Table(calls: seq<Call>): Listeners {
    Made(map[], calls).0
  }

  function SentBy(calls: seq<Call>): seq<Up> {
    Made(map[], calls).1
  }

  /** How often a listener has joined a command less how often it has left it, where leaving without
      having joined does not count. */
  function Count(calls: seq<Call>, c: Command, x: Listener): nat {
    if calls == [] then 0
    else
      var n := Count(calls[..|calls| - 1], c, x);
      var call := calls[|calls| - 1];
      if call == Join(c, x) then n + 1 else if call == Leave(c, x) && n > 0 then n - 1 else n
  }

  /** The subscriptions (true) and unsubscriptions (false) of one command. */
  function About(up: seq<Up>, c: Command): seq<bool> {
    if up == [] then []
    else About(up[..|up| - 1], c) +
         if up[|up| - 1] == AskSubscribe(c) then [true] else if up[|up| - 1] == AskUnsubscribe(c) then [false] else []
  }

  lemma {:induction false} WithoutCounts(s: seq<Listener>, x: Listener)
    ensures multiset(Without(s, x)) == multiset(s) - multiset{x}
  {
    if s != [] {
      assert s == [s[0]] + s[1..];
      WithoutCounts(s[1..], x);
    }
  }

  /** It is the first occurrence that goes, and nothing else. */
  lemma {:induction false} WithoutFirst(s: seq<Listener>, x: Listener, i: nat)
    requires i < |s| && s[i] == x && x !in s[..i]
    ensures Without(s, x) == s[..i] + s[i + 1..]
  {
    if i > 0 {
      assert s[1..][..i - 1] == s[..i][1..] && s[0] == s[..i][0];
      WithoutFirst(s[1..], x, i - 1);
      assert s[1..][i..] == s[i + 1..] && s[..i] == [s[0]] + s[1..][..i - 1];
    }
  }

  lemma JoinFirst(t: Listeners, c: Command, x: Listener)
    requires c !in t
    ensures Change(t, Join(c, x)) == (t[c := [x]], [AskSubscribe(c)])
  {
  }

  lemma JoinsOne(commands: seq<Command>, c: Command, x: Listener)
    ensures Joins(commands + [c], x) == Joins(commands, x) + [Join(c, x)]
    ensures Resubscribes(commands + [c]) == Resubscribes(commands) + [AskSubscribe(c)]
  {
  }

  lemma JoinsNone(t: Listeners, x: Listener)
    ensures Made(t, Joins([], x)) == (t, []) && Resubscribes([]) == []
  {
  }

  /** Joining many commands that nobody has joined subscribes to each, in the order given. */
  lemma {:induction false} JoiningAll(t: Listeners, commands: seq<Command>, x: Listener)
    requires forall i, j :: 0 <= i < j < |commands| ==> commands[i] != commands[j]
    requires forall c <- commands :: c !in t
    ensures var (r, sent) := Made(t, Joins(commands, x));
            && sent == Resubscribes(commands)
            && forall c :: c in r <==> c in t || c in commands
  {
    hide Change, Joins, Resubscribes, Made;
    if commands == [] {
      JoinsNone(t, x);
    } else {
      var n := |commands| - 1;
      var rest, c := commands[..n], commands[n];
      assert commands == rest + [c];
      JoiningAll(t, rest, x);
      JoinsOne(rest, c, x);
      MadeOne(t, Joins(rest, x), Join(c, x));
      JoinFirst(Made(t, Joins(rest, x)).0, c, x);
    }
  }

  /** Leaving them all again is as if they had never been joined. */
  lemma {:induction false} LeavingAll(t: Listeners, commands: seq<Command>, x: Listener)
    requires forall i, j :: 0 <= i < j < |commands| ==> commands[i] != commands[j]
    requires forall c <- commands :: c in t && t[c] == [x]
    ensures Made(t, Leaves(commands, x)).0 == t - set c | c in commands
    ensures Made(t, Leaves(commands, x)).1 == seq(|commands|, i requires 0 <= i < |commands| => AskUnsubscribe(commands[i]))
  {
    if commands != [] {
      var n := |commands| - 1;
      var rest, c := commands[..n], commands[n];
      LeavingAll(t, rest, x);
      MadeOne(t, Leaves(rest, x), Leave(c, x));
      assert Leaves(commands, x) == Leaves(rest, x) + [Leave(c, x)];
      assert commands == rest + [c];
    }
  }

  /** A call changes the list of its own command only; an entry that becomes empty goes. */
  lemma ChangeList(t: Listeners, call: Call, c: Command)
    requires c in t ==> t[c] != []
    ensures var r := Change(t, call).0;
            && (c in r ==> r[c] != [])
            && Of(r, c) == if call.command != c then Of(t, c)
                           else if call.Join? then Of(t, c) + [call.listener]
                           else Without(Of(t, c), call.listener)
  {
    if call.Leave? && call.listener !in Of(t, c) {
      WithoutNothing(Of(t, c), call.listener);
    }
  }

  lemma {:induction false} WithoutNothing(s: seq<Listener>, x: Listener)
    requires x !in s
    ensures Without(s, x) == s
  {
    if s != [] {
      WithoutNothing(s[1..], x);
    }
  }

  lemma ChangeCounts(t: Listeners, call: Call, c: Command, x: Listener)
    requires c in t ==> t[c] != []
    ensures var r := Change(t, call).0; var n := multiset(Of(t, c))[x];
            multiset(Of(r, c))[x] == if call == Join(c, x) then n + 1 else if call == Leave(c, x) && n > 0 then n - 1 else n
  {
    ChangeList(t, call, c);
    hide Change, Of, Without;
    WithoutCounts(Of(t, c), call.listener);
  }

  /** The registry is the counters: no command has an empty list, and a list has each listener as
      often as the listener's counter says. */
  lemma {:induction false} ListsAreCounts(calls: seq<Call>, c: Command, x: Listener)
    ensures multiset(Of(Table(calls), c))[x] == Count(calls, c, x)
    ensures c in Table(calls) ==> Table(calls)[c] != []
  {
    if calls != [] {
      var h := calls[..|calls| - 1];
      assert Table(calls) == Change(Table(h), calls[|calls| - 1]).0;
      hide Change;
      ListsAreCounts(h, c, x);
      ChangeCounts(Table(h), calls[|calls| - 1], c, x);
      ChangeList(Table(h), calls[|calls| - 1], c);
    }
  }

  /** A command has listeners exactly while some counter is not zero. */
  lemma ListenedIsCounted(calls: seq<Call>, c: Command)
    ensures c in Table(calls) <==> exists x :: Count(calls, c, x) > 0
  {
    hide Table, Count;
    if c in Table(calls) {
      var x := if Table(calls)[c] == [] then 0 else Table(calls)[c][0];
      ListsAreCounts(calls, c, x);
      assert x in multiset(Of(Table(calls), c));
    } else {
      forall x ensures Count(calls, c, x) == 0 {
        ListsAreCounts(calls, c, x);
      }
    }
  }

  predicate Alternates(s: seq<bool>) {
    forall i :: 0 <= i < |s| ==> s[i] == (i % 2 == 0)
  }

  lemma AboutOne(up: seq<Up>, more: seq<Up>, c: Command)
    requires |more| <= 1
    ensures About(up + more, c) == About(up, c) + About(more, c)
  {
    if more == [] {
      assert up + more == up;
    } else {
      assert (up + more)[..|up|] == up && more[..0] == [];
    }
  }

  /** What a process sends about one command strictly alternates, starting with a subscription, and
      ends with one exactly while the command has a listener. */
  lemma {:induction false} WireAlternates(calls: seq<Call>, c: Command)
    ensures Alternates(About(SentBy(calls), c))
    ensures c in Table(calls) <==> |About(SentBy(calls), c)| % 2 == 1
  {
    if calls != [] {
      var h := calls[..|calls| - 1];
      WireAlternates(h, c);
      var more := Change(Table(h), calls[|calls| - 1]).1;
      assert SentBy(calls) == SentBy(h) + more;
      AboutOne(SentBy(h), more, c);
    }
  }

  /** What a history of the broker has about one session and command. */
  function HeardFrom(history: seq<Step>, s: Session, c: Command): seq<bool> {
    if history == [] then []
    else HeardFrom(Before(history), s, c) +
         if Last(history) == Subscribe(s, c) then [true] else if Last(history) == Unsubscribe(s, c) then [false] else []
  }

  lemma {:induction false} LastWord(history: seq<Step>, s: Session, c: Command)
    requires ForgetSubscriptions(s) !in history
    ensures Subscribed(history, s, c) <==>
            var heard := HeardFrom(history, s, c); heard != [] && heard[|heard| - 1]
  {
    if history != [] {
      LastWord(Before(history), s, c);
    }
  }

  /** With the daemon: once it has read, in order and among whatever else it does, what the process
      sent about a command, the process's session is subscribed exactly if the command has a
      listener: one whose counter is not zero. */
  lemma RegistryAgreement(calls: seq<Call>, history: seq<Step>, s: Session, c: Command)
    requires HeardFrom(history, s, c) == About(SentBy(calls), c) && ForgetSubscriptions(s) !in history
    ensures s in Holders(After(history).subscribers, c) <==> c in Table(calls)
    ensures c in Table(calls) <==> exists x :: Count(calls, c, x) > 0
  {
    TableIsHistory(history, s, c);
    hide Table, SentBy, Count, Subscribed, Holders, After, About, HeardFrom;
    LastWord(history, s, c);
    WireAlternates(calls, c);
    ListenedIsCounted(calls, c);
  }
}
