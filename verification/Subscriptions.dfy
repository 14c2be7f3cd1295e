/** All-or-nothing registration of a stream's channel subscriptions, with rollback and close that can be retried. */
module Subscriptions {
  import opened Outcomes
  import Counting

  datatype Command = Vehicle | NvrVehicle

  datatype Token = Token(command: Command, channel: int)

  const MAX_CHANNELS := 256

  ghost predicate Distinct<T>(s: seq<T>) {
    forall i, j | 0 <= i < j < |s| :: s[i] != s[j]
  }

  // ---- the requested targets

  /** The items in order of first occurrence, each once. */
  function Firsts<T(==, !new)>(items: seq<T>): (r: seq<T>)
    ensures Distinct(r)
    ensures forall x :: x in r <==> x in items
  {
    if items == [] then []
    else
      var rest, last := Firsts(items[..|items| - 1]), items[|items| - 1];
      assert items == items[..|items| - 1] + [last];
      if last in rest then rest else rest + [last]
  }

  lemma {:induction false} FirstsOfDistinct<T(!new)>(items: seq<T>)
    requires Distinct(items)
    ensures Firsts(items) == items
    decreases |items|
  {
    if items != [] {
      FirstsOfDistinct(items[..|items| - 1]);
      assert items == items[..|items| - 1] + [items[|items| - 1]];
      assert items[|items| - 1] !in items[..|items| - 1];
    }
  }

  /** As many as there are different items. */
  lemma FirstsSize<T(!new)>(items: seq<T>)
    ensures |Firsts(items)| == |set x | x in items|
  {
    Counting.ListsSize(Firsts(items), set x | x in items);
  }

  method Deduplicate<T(==, !new)>(items: seq<T>) returns (r: seq<T>)
    ensures r == Firsts(items)
  {
    r := [];
    for i := 0 to |items|
      invariant r == Firsts(items[..i])
    {
      assert items[..i + 1][..i] == items[..i];
      if items[i] !in r {
        r := r + [items[i]];
      }
    }
    assert items[..|items|] == items;
  }

  function Row(command: Command, channels: seq<int>): (r: seq<Token>)
    ensures |r| == |channels| && forall i | 0 <= i < |r| :: r[i] == Token(command, channels[i])
  {
    seq(|channels|, i requires 0 <= i < |channels| => Token(command, channels[i]))
  }

  /** Every command with every channel, command by command. */
  function Product(commands: seq<Command>, channels: seq<int>): seq<Token> {
    if commands == [] then [] else Row(commands[0], channels) + Product(commands[1..], channels)
  }

  lemma {:induction false} ProductIsComplete(commands: seq<Command>, channels: seq<int>)
    ensures forall t :: t in Product(commands, channels) <==> t.command in commands && t.channel in channels
    ensures Distinct(commands) && Distinct(channels) ==> Distinct(Product(commands, channels))
    decreases |commands|
  {
    if commands != [] {
      var row, rest := Row(commands[0], channels), Product(commands[1..], channels);
      ProductIsComplete(commands[1..], channels);
      forall t ensures t in row <==> t.command == commands[0] && t.channel in channels {
        if t.command == commands[0] && t.channel in channels {
          var i :| 0 <= i < |channels| && channels[i] == t.channel;
          assert row[i] == t;
        }
      }
      if Distinct(commands) && Distinct(channels) {
        assert commands[0] !in commands[1..];
        forall i, j | 0 <= i < |row| && 0 <= j < |rest| ensures row[i] != rest[j] {
          assert row[i] in row && rest[j] in rest;
        }
      }
    }
  }

  // ---- one round of unsubscribing

  /** The tokens whose native unsubscribe fails, in order; `native` is the library's answer for each token. */
  function Refused(tokens: seq<Token>, native: Token -> bool): seq<Token> {
    if tokens == [] then []
    else (if native(tokens[0]) then [] else [tokens[0]]) + Refused(tokens[1..], native)
  }

  function Granted(tokens: seq<Token>, native: Token -> bool): seq<Token> {
    if tokens == [] then []
    else (if native(tokens[0]) then [tokens[0]] else []) + Granted(tokens[1..], native)
  }

  lemma {:induction false} RoundConserves(tokens: seq<Token>, native: Token -> bool)
    ensures multiset(tokens) == multiset(Refused(tokens, native)) + multiset(Granted(tokens, native))
    decreases |tokens|
  {
    if tokens != [] {
      RoundConserves(tokens[1..], native);
      assert tokens == [tokens[0]] + tokens[1..];
    }
  }

  lemma {:induction false} RefusedIsExact(tokens: seq<Token>, native: Token -> bool)
    ensures forall t :: t in Refused(tokens, native) <==> t in tokens && !native(t)
    ensures forall t :: t in Granted(tokens, native) <==> t in tokens && native(t)
    ensures Distinct(tokens) ==> Distinct(Refused(tokens, native))
    decreases |tokens|
  {
    if tokens != [] {
      assert tokens == [tokens[0]] + tokens[1..];
      RefusedIsExact(tokens[1..], native);
      if Distinct(tokens) {
        assert tokens[0] !in tokens[1..];
        assert tokens[0] !in Refused(tokens[1..], native);
      }
    }
  }

  lemma {:induction false} RefusedPrepend(x: Token, tokens: seq<Token>, native: Token -> bool)
    ensures Refused([x] + tokens, native) == (if native(x) then [] else [x]) + Refused(tokens, native)
    ensures Granted([x] + tokens, native) == (if native(x) then [x] else []) + Granted(tokens, native)
  {
    assert ([x] + tokens)[1..] == tokens;
  }

  function Reversed(s: seq<Token>): (r: seq<Token>)
    ensures |r| == |s| && forall i | 0 <= i < |s| :: r[i] == s[|s| - 1 - i]
  {
    if s == [] then [] else Reversed(s[1..]) + [s[0]]
  }

  datatype SetupError = BadChannels | NoCommands | SetupFailed | RollbackFailed

  /** How one registration ends: the deadline passes before it, the library refuses it, or grants it,
      with the deadline possibly passing afterwards. */
  datatype Answer = TooLate | Denied | Registered | RegisteredTooLate

  /** Of `n` registrations tried in turn, exactly the first `done` were granted. */
  ghost predicate StopsAfter(answers: nat -> Answer, n: nat, done: nat) {
    && done <= n
    && (forall i: nat | i + 1 < done :: answers(i) == Registered)
    && (done > 0 ==> answers(done - 1) == Registered || answers(done - 1) == RegisteredTooLate)
    && (done < n ==> (done > 0 && answers(done - 1) == RegisteredTooLate)
                     || answers(done) == TooLate || answers(done) == Denied)
    && (done > 0 && done < n && answers(done - 1) == Registered ==> answers(done) == TooLate || answers(done) == Denied)
  }

  ghost predicate AllRegistered(answers: nat -> Answer, n: nat) {
    forall i: nat | i < n :: answers(i) == Registered
  }

  class PlateSubscriptions {
    /** The closer's list of tokens, whether the stream has closed, and whether a close is under way. */
    var tokens: seq<Token>
    var closed: bool
    var closing: bool
    /** What is registered at the native library, in order of registration, and what was ever unsubscribed there. */
    ghost var registered: seq<Token>
    ghost var unsubscribed: multiset<Token>

    ghost predicate Valid()
      reads this
    {
      && tokens == registered && Distinct(tokens)
      && (closed ==> tokens == [] && !closing)
    }

    constructor ()
      ensures Valid() && tokens == [] && !closed && !closing && unsubscribed == multiset{}
    {
      tokens, closed, closing, registered, unsubscribed := [], false, false, [], multiset{};
    }

    /** The closer: unsubscribes in reverse order and keeps, in the original order, what the library refused. */
    method RunCloser(native: Token -> bool, callbackCleared: bool) returns (ok: bool)
      requires Valid()
      modifies this`tokens, this`registered, this`unsubscribed
      ensures tokens == registered == Refused(old(tokens), native) && Distinct(tokens)
      ensures unsubscribed == old(unsubscribed) + multiset(Granted(old(tokens), native))
      ensures ok <==> tokens == [] && callbackCleared
    {
      var remaining: seq<Token> := [];
      ghost var start := tokens;
      var n := |tokens|;
      while n > 0
        invariant 0 <= n <= |tokens| && tokens == start
        invariant Reversed(remaining) == Refused(start[n..], native)
        invariant registered == start[..n] + Refused(start[n..], native)
        invariant unsubscribed == old(unsubscribed) + multiset(Granted(start[n..], native))
      {
        n := n - 1;
        var token := tokens[n];
        CloserStep(start, n, native, remaining);
        if native(token) {
          OneRemoved(start, n, Refused(start[n + 1..], native));
          registered := registered[..n] + registered[n + 1..];
          unsubscribed := unsubscribed + multiset{token};
        } else {
          remaining := remaining + [token];
        }
      }
      assert start[0..] == start && start[..0] == [];
      RefusedIsExact(start, native);
      tokens := Reversed(remaining);
      ok := remaining == [] && callbackCleared;
    }

    /** A stream closes only when its closer does; otherwise it can be closed again. A close by another thread, which
        runs the closer without the stream's lock, is not repeated but refused. */
    method Close(native: Token -> bool, callbackCleared: bool) returns (ok: bool)
      requires Valid()
      modifies this
      ensures Valid() && closing == old(closing)
      ensures old(closed || closing) ==>
                tokens == old(tokens) && unsubscribed == old(unsubscribed) && closed == old(closed)
      ensures !old(closed || closing) ==> tokens == Refused(old(tokens), native)
      ensures !old(closed || closing) ==> unsubscribed == old(unsubscribed) + multiset(Granted(old(tokens), native))
      ensures ok == closed && (!old(closed || closing) ==> (ok <==> tokens == [] && callbackCleared))
    {
      if closed {
        return true;
      }
      if closing {
        return false;
      }
      closing := true;
      ok := RunCloser(native, callbackCleared);
      closing, closed := false, ok;
    }

    /** Registers all targets up to the first failure; `done` is how many were granted. */
    method Register(targets: seq<Token>, answers: nat -> Answer) returns (ok: bool, done: nat)
      requires Valid() && tokens == [] && !closed && Distinct(targets)
      modifies this`tokens, this`registered
      ensures Valid() && StopsAfter(answers, |targets|, done) && tokens == targets[..done]
      ensures ok <==> AllRegistered(answers, |targets|)
    {
      done := 0;
      while done < |targets|
        invariant done <= |targets| && tokens == registered == targets[..done]
        invariant AllRegistered(answers, done)
      {
        var answer := answers(done);
        if answer == TooLate || answer == Denied {
          return false, done;
        }
        assert targets[..done + 1] == targets[..done] + [targets[done]];
        registered := registered + [targets[done]];
        tokens := tokens + [targets[done]];
        done := done + 1;
        if answer == RegisteredTooLate {
          return false, done;
        }
      }
      ok := true;
    }

    /** Registers the targets, and rolls back what was granted when that fails. */
    method SetUp(targets: seq<Token>, answers: nat -> Answer, native: Token -> bool, callbackCleared: bool)
      returns (r: Result<(), SetupError>, ghost done: nat)
      requires Valid() && tokens == [] && !closed && !closing && unsubscribed == multiset{} && Distinct(targets)
      modifies this
      ensures Valid()
      ensures IsSetUp(r, done, tokens, unsubscribed, targets, answers, native, callbackCleared)
      ensures closed == (r == Err(SetupFailed))
    {
      var ok, n := Register(targets, answers);
      done := n;
      if ok {
        assert targets[..|targets|] == targets;
        return Ok(()), done;
      }
      var rolledBack := Close(native, callbackCleared);
      if !rolledBack {
        return Err(RollbackFailed), done;
      }
      r := Err(SetupFailed);
    }

    /** Main result on setup: it leaves the full product registered, or exactly those of the granted registrations
        that the rollback could not undo. */
    method Subscribe(commandsAsked: seq<Command>, channelsAsked: seq<int>, answers: nat -> Answer,
                     native: Token -> bool, callbackCleared: bool)
      returns (r: Result<(), SetupError>, ghost done: nat)
      requires Valid() && tokens == [] && !closed && !closing && unsubscribed == multiset{}
      modifies this
      ensures Valid()
      ensures r == Err(BadChannels) <==>
                || channelsAsked == [] || |set c | c in channelsAsked| > 256 || exists c | c in channelsAsked :: c < 0
      ensures r == Err(NoCommands) ==> commandsAsked == []
      ensures commandsAsked == [] ==> r == Err(NoCommands) || r == Err(BadChannels)
      ensures r == Err(BadChannels) || r == Err(NoCommands) ==> tokens == [] && !closed && unsubscribed == multiset{}
      ensures r != Err(BadChannels) && r != Err(NoCommands) ==>
                && IsSetUp(r, done, tokens, unsubscribed, Product(Firsts(commandsAsked), Firsts(channelsAsked)),
                           answers, native, callbackCleared)
                && closed == (r == Err(SetupFailed))
    {
      done := 0;
      FirstsSize(channelsAsked);
      var channels := Deduplicate(channelsAsked);
      if channels == [] || |channels| > MAX_CHANNELS || exists i | 0 <= i < |channels| :: channels[i] < 0 {
        if channels != [] && |channels| <= MAX_CHANNELS {
          var i :| 0 <= i < |channels| && channels[i] < 0;
          assert channels[i] in channelsAsked;
        }
        return Err(BadChannels), done;
      }
      var commands := Deduplicate(commandsAsked);
      if commands == [] {
        assert commandsAsked == [] || commandsAsked[0] in commands;
        return Err(NoCommands), done;
      }
      var targets := Product(commands, channels);
      TargetsAreTheProduct(commandsAsked, channelsAsked);
      r, done := SetUp(targets, answers, native, callbackCleared);
    }
  }

  /** The end of a setup: all registered and nothing undone, or the granted ones undone as far as the library let. */
  ghost predicate IsSetUp(r: Result<(), SetupError>, done: nat, tokens: seq<Token>, unsubscribed: multiset<Token>,
                          targets: seq<Token>, answers: nat -> Answer, native: Token -> bool, callbackCleared: bool) {
    && StopsAfter(answers, |targets|, done)
    && r != Err(BadChannels) && r != Err(NoCommands)
    && (r.Ok? <==> AllRegistered(answers, |targets|))
    && (r.Ok? ==> tokens == targets && unsubscribed == multiset{})
    && (r.Err? ==> tokens == Refused(targets[..done], native)
                   && unsubscribed == multiset(Granted(targets[..done], native)))
    && (r == Err(SetupFailed) <==> r.Err? && tokens == [] && callbackCleared)
  }

  /** Whatever repetitions the caller lists, the targets are every asked command with every asked channel, once. */
  lemma TargetsAreTheProduct(commandsAsked: seq<Command>, channelsAsked: seq<int>)
    ensures var targets := Product(Firsts(commandsAsked), Firsts(channelsAsked));
            Distinct(targets) && forall t :: t in targets <==> t.command in commandsAsked && t.channel in channelsAsked
  {
    ProductIsComplete(Firsts(commandsAsked), Firsts(channelsAsked));
  }

  lemma OneRemoved(start: seq<Token>, n: nat, rest: seq<Token>)
    requires n < |start|
    ensures var all := start[..n + 1] + rest; |all| > n && all[..n] + all[n + 1..] == start[..n] + rest
  {}

  lemma CloserStep(start: seq<Token>, n: nat, native: Token -> bool, remaining: seq<Token>)
    requires n < |start|
    ensures native(start[n]) ==> Refused(start[n..], native) == Refused(start[n + 1..], native)
    ensures native(start[n]) ==>
              multiset(Granted(start[n..], native)) == multiset(Granted(start[n + 1..], native)) + multiset{start[n]}
    ensures !native(start[n]) ==> Refused(start[n..], native) == [start[n]] + Refused(start[n + 1..], native)
    ensures !native(start[n]) ==>
              start[..n + 1] + Refused(start[n + 1..], native) == start[..n] + Refused(start[n..], native)
    ensures !native(start[n]) ==> Granted(start[n..], native) == Granted(start[n + 1..], native)
    ensures Reversed(remaining + [start[n]]) == [start[n]] + Reversed(remaining)
  {
    assert start[n..] == [start[n]] + start[n + 1..];
    RefusedPrepend(start[n], start[n + 1..], native);
  }

  // ---- any number of close attempts

  /** What is left of the tokens after several rounds of closing, each with its own answers. */
  function AfterRounds(tokens: seq<Token>, rounds: seq<Token -> bool>): seq<Token>
    decreases |rounds|
  {
    if rounds == [] then tokens else AfterRounds(Refused(tokens, rounds[0]), rounds[1..])
  }

  function GrantedInRounds(tokens: seq<Token>, rounds: seq<Token -> bool>): multiset<Token>
    decreases |rounds|
  {
    if rounds == [] then multiset{}
    else multiset(Granted(tokens, rounds[0])) + GrantedInRounds(Refused(tokens, rounds[0]), rounds[1..])
  }

  lemma {:induction false} RoundsConserve(tokens: seq<Token>, rounds: seq<Token -> bool>)
    ensures multiset(tokens) == multiset(AfterRounds(tokens, rounds)) + GrantedInRounds(tokens, rounds)
    decreases |rounds|
  {
    if rounds != [] {
      RoundConserves(tokens, rounds[0]);
      RoundsConserve(Refused(tokens, rounds[0]), rounds[1..]);
    }
  }

  /** Main result on retries: whatever the library answers in however many rounds, no registration is successfully
      unsubscribed twice, and one is gone from the list iff it was unsubscribed. */
  lemma NothingIsUnsubscribedTwice(tokens: seq<Token>, rounds: seq<Token -> bool>, t: Token)
    requires Distinct(tokens)
    ensures GrantedInRounds(tokens, rounds)[t] <= 1
    ensures t in tokens ==> (t in AfterRounds(tokens, rounds) <==> GrantedInRounds(tokens, rounds)[t] == 0)
  {
    RoundsConserve(tokens, rounds);
    DistinctCount(tokens, t);
  }

  lemma {:induction false} DistinctCount(s: seq<Token>, t: Token)
    requires Distinct(s)
    ensures multiset(s)[t] == if t in s then 1 else 0
    decreases |s|
  {
    if s != [] {
      assert s == [s[0]] + s[1..];
      DistinctCount(s[1..], t);
      assert s[0] !in s[1..];
    }
  }
}
