/**
 * The anagram round engine: a player-name set, the round status
 * (`Idle` or `Ongoing`), the points ledger and the handle of the timeout task.
 *
 * The current instant is the parameter `now` (an integer clock), the random
 * word index is `pick` (reduced modulo the pool size, as `choose` draws an
 * index below it) and the shuffle's random draws are `draws`. Every message
 * sent on the broadcast channel is an `Event` appended to `Broadcast.sent`.
 */
module Anagram {
  import opened Wrappers
  import Shuffle

  /** One word of the pool, with the points a correct guess earns. */
  datatype DatamuseRes = DatamuseRes(word: string, score: nat)

  /** The live round: the word, the scrambled letters shown, its reward and its deadline. */
  datatype GameInfo = GameInfo(answer: string, shuffled: string, score: nat, endsAt: int)

  datatype RoundStatus = Idle | Ongoing(info: GameInfo)

  /** The spawned timeout task: what it will announce, when, and whether it was aborted. */
  datatype Timer = Timer(answer: string, deadline: int, aborted: bool)

  /** The messages the engine and the commands broadcast. */
  datatype Event =
    | GuessedRight(player: string, total: nat, gained: nat)  // "@p: you guessed it right! Your score: total (+gained)"
    | KeepGuessing(player: string)                          // "@p: keep guessing!"
    | PleaseWait(timeLeft: int)                             // "Please wait until the current game ends. Time left: ..."
    | WordAnnounced(shuffled: string, answer: string, duration: nat)  // "Word: s (a). You have d second(s) to guess!"
    | InvalidStartFormat(author: string)                    // "To a: Invalid start match format! Not a number."
    | YourScore(player: string, points: nat)                // "@p: Your score is n."
    | HelpText(author: string)                              // the /help listing

  /** The engine's state as a value. */
  datatype Game = Game(players: set<string>, status: RoundStatus, points: map<string, nat>, handle: Option<Timer>)

  /** The state after an operation and what it broadcast, in order. */
  datatype Step = Step(game: Game, events: seq<Event>)

  /** A round still accepts guesses at `now` unless its deadline lies strictly before `now`. */
  predicate IsLive(status: RoundStatus, now: int) {
    status.Ongoing? && !(status.info.endsAt < now)
  }

  /** `ensure_state`: an overdue round is dropped; anything else is kept. */
  function Expire(status: RoundStatus, now: int): (r: RoundStatus)
    ensures r == Idle || r == status
    ensures r.Ongoing? <==> IsLive(status, now)
  {
    match status
    case Ongoing(info) => if info.endsAt < now then Idle else status
    case Idle => Idle
  }

  /** `player_to_points.get(p).copied().unwrap_or_default()`. */
  function PointsOf(points: map<string, nat>, player: string): (r: nat)
    ensures player in points ==> r == points[player]
    ensures player !in points ==> r == 0
  {
    if player in points then points[player] else 0
  }

  /** `*player_to_points.entry(p).or_insert(0) += amount`. */
  function Credit(points: map<string, nat>, player: string, amount: nat): (r: map<string, nat>)
    ensures r.Keys == points.Keys + {player}
    ensures PointsOf(r, player) == PointsOf(points, player) + amount
    ensures forall q :: q != player ==> PointsOf(r, q) == PointsOf(points, q)
  {
    points[player := PointsOf(points, player) + amount]
  }

  /** `JoinHandle::abort` on the stored handle, if any. */
  function Abort(handle: Option<Timer>): (r: Option<Timer>)
    ensures r.Some? <==> handle.Some?
    ensures r.Some? ==> r.value.aborted && r.value.answer == handle.value.answer && r.value.deadline == handle.value.deadline
  {
    match handle
    case Some(t) => Some(t.(aborted := true))
    case None => None
  }

  /** `finalise`: abort the timeout task and return to `Idle`. */
  function Finalised(g: Game): (r: Game)
    ensures r.status == Idle && r.players == g.players && r.points == g.points
    ensures r.handle.Some? <==> g.handle.Some?
    ensures r.handle.Some? ==> r.handle.value.aborted
  {
    g.(status := Idle, handle := Abort(g.handle))
  }

  /** `guess(player, text)` at instant `now`. */
  function GuessStep(g: Game, player: string, text: string, now: int): (r: Step)
    ensures r.game.players == g.players
    ensures r.game.status == Idle || r.game == g
    ensures |r.events| <= 1
    ensures r.game.points.Keys >= g.points.Keys
  {
    var status := Expire(g.status, now);
    match status
    case Idle => Step(g.(status := Idle), [])
    case Ongoing(info) =>
      if text == info.answer then
        var points := Credit(g.points, player, info.score);
        Step(Finalised(g.(points := points)), [GuessedRight(player, points[player], info.score)])
      else
        Step(g.(status := status), [KeepGuessing(player)])
  }

  /** `start(duration)` at instant `now`; the pool may only be empty when a live round makes the draw unnecessary. */
  function StartStep(g: Game, words: seq<DatamuseRes>, duration: nat, now: int, pick: nat, draws: nat -> nat): (r: Step)
    requires !IsLive(g.status, now) ==> |words| > 0
    ensures IsLive(r.game.status, now)
    ensures r.game.players == g.players && r.game.points == g.points
    ensures |r.events| == 1
  {
    var status := Expire(g.status, now);
    match status
    case Ongoing(info) => Step(g.(status := status), [PleaseWait(info.endsAt - now)])
    case Idle =>
      var random := words[pick % |words|];
      var shuffled := Shuffle.Shuffled(random.word, draws);
      var endsAt := now + duration;
      Step(g.(status := Ongoing(GameInfo(random.word, shuffled, random.score, endsAt)),
              handle := Some(Timer(random.word, endsAt, false))),
           [WordAnnounced(shuffled, random.word, duration)])
  }

  /**
   * What holds of every reachable state: a live round's word and reward come
   * from the pool, its scrambled letters are a rearrangement of the word, and
   * the stored handle is the still-running timer armed for it.
   */
  ghost predicate Consistent(g: Game, words: seq<DatamuseRes>) {
    g.status.Ongoing? ==>
      var info := g.status.info;
      && DatamuseRes(info.answer, info.score) in words
      && multiset(info.shuffled) == multiset(info.answer)
      && g.handle == Some(Timer(info.answer, info.endsAt, false))
  }

  // ---- Properties of single steps ----

  /** `ensure_state` drops a round exactly when its deadline is strictly past; a round ending at `now` survives. */
  lemma ExpireExactlyWhenOverdue(status: RoundStatus, now: int)
    ensures status.Ongoing? && status.info.endsAt < now ==> Expire(status, now) == Idle
    ensures status.Ongoing? && status.info.endsAt == now ==> Expire(status, now) == status
    ensures status == Idle ==> Expire(status, now) == Idle
  {
  }

  /** A guess with no live round credits nobody and broadcasts nothing. */
  lemma GuessWithoutLiveRound(g: Game, player: string, text: string, now: int)
    requires !IsLive(g.status, now)
    ensures GuessStep(g, player, text, now) == Step(g.(status := Idle), [])
  {
  }

  /**
   * The exact answer, during a live round: the guesser gains exactly the
   * round's reward, nobody else's points move, the round ends, its timer is
   * aborted, and one message is broadcast.
   */
  lemma GuessCorrect(g: Game, player: string, text: string, now: int)
    requires IsLive(g.status, now) && text == g.status.info.answer
    ensures var r := GuessStep(g, player, text, now);
      && PointsOf(r.game.points, player) == PointsOf(g.points, player) + g.status.info.score
      && (forall q :: q != player ==> PointsOf(r.game.points, q) == PointsOf(g.points, q))
      && r.game.status == Idle
      && r.game.handle == Abort(g.handle)
      && r.game.players == g.players
      && r.events == [GuessedRight(player, PointsOf(g.points, player) + g.status.info.score, g.status.info.score)]
  {
  }

  /** Any other text, during a live round, changes nothing and draws one "keep guessing". */
  lemma GuessWrong(g: Game, player: string, text: string, now: int)
    requires IsLive(g.status, now) && text != g.status.info.answer
    ensures GuessStep(g, player, text, now) == Step(g, [KeepGuessing(player)])
  {
  }

  /** The comparison is exact: a guess differing from the answer only in letter case is wrong. */
  lemma GuessIsCaseSensitive(g: Game, now: int)
    requires IsLive(g.status, now) && g.status.info.answer == "apple"
    ensures GuessStep(g, "bob", "APPLE", now).events == [KeepGuessing("bob")]
    ensures GuessStep(g, "bob", "APPLE", now).game.points == g.points
  {
    assert "APPLE" != "apple" by { assert "APPLE"[0] != "apple"[0]; }
  }

  /** `start` during a live round leaves the whole state, round and handle included, as it was, and reports the time left. */
  lemma StartWhileLive(g: Game, words: seq<DatamuseRes>, duration: nat, now: int, pick: nat, draws: nat -> nat)
    requires IsLive(g.status, now)
    ensures StartStep(g, words, duration, now, pick, draws) == Step(g, [PleaseWait(g.status.info.endsAt - now)])
    ensures g.status.info.endsAt - now >= 0
  {
  }

  /** A second `start`, with any duration and any randomness, cannot disturb the round the first one opened. */
  lemma StartIdempotent(g: Game, words: seq<DatamuseRes>, d1: nat, d2: nat, now1: int, now2: int,
                        pick1: nat, pick2: nat, draws1: nat -> nat, draws2: nat -> nat)
    requires !IsLive(g.status, now1) ==> |words| > 0
    requires now1 <= now2
    requires !IsLive(g.status, now1) ==> now2 <= now1 + d1
    requires IsLive(g.status, now1) ==> now2 <= g.status.info.endsAt
    ensures var g1 := StartStep(g, words, d1, now1, pick1, draws1).game;
      StartStep(g1, words, d2, now2, pick2, draws2).game == g1
  {
    var g1 := StartStep(g, words, d1, now1, pick1, draws1).game;
    assert IsLive(g1.status, now2);
  }

  /**
   * `start` with no live round opens one: the word and reward are an entry
   * of the pool, the letters shown are a rearrangement of the word, the
   * deadline is `now + duration`, a fresh timer is armed, and the players and
   * points are untouched.
   */
  lemma StartWhenIdle(g: Game, words: seq<DatamuseRes>, duration: nat, now: int, pick: nat, draws: nat -> nat)
    requires !IsLive(g.status, now) && |words| > 0
    ensures var r := StartStep(g, words, duration, now, pick, draws);
      && r.game.status.Ongoing?
      && DatamuseRes(r.game.status.info.answer, r.game.status.info.score) in words
      && multiset(r.game.status.info.shuffled) == multiset(r.game.status.info.answer)
      && r.game.status.info.endsAt == now + duration
      && r.game.handle == Some(Timer(r.game.status.info.answer, now + duration, false))
      && r.game.players == g.players && r.game.points == g.points
      && |r.events| == 1
  {
    var w := words[pick % |words|];
    Shuffle.ShuffledIsPermutation(w.word, draws);
    assert DatamuseRes(w.word, w.score) == w;
  }

  /** Every entry of the pool can be the one drawn. */
  lemma StartCanDrawAnyWord(g: Game, words: seq<DatamuseRes>, duration: nat, now: int, k: nat, draws: nat -> nat)
    requires !IsLive(g.status, now) && k < |words|
    ensures StartStep(g, words, duration, now, k, draws).game.status.info.answer == words[k].word
  {
  }

  lemma GuessPreservesConsistent(g: Game, words: seq<DatamuseRes>, player: string, text: string, now: int)
    requires Consistent(g, words)
    ensures Consistent(GuessStep(g, player, text, now).game, words)
  {
  }

  lemma StartPreservesConsistent(g: Game, words: seq<DatamuseRes>, duration: nat, now: int, pick: nat, draws: nat -> nat)
    requires Consistent(g, words)
    requires !IsLive(g.status, now) ==> |words| > 0
    ensures Consistent(StartStep(g, words, duration, now, pick, draws).game, words)
  {
    if !IsLive(g.status, now) {
      StartWhenIdle(g, words, duration, now, pick, draws);
    }
  }

  // ---- Runs of guesses within one round ----

  datatype Attempt = Attempt(player: string, text: string, now: int)

  /** The guesses of `attempts`, applied one after another, their messages concatenated. */
  function GuessAll(g: Game, attempts: seq<Attempt>): Step
    decreases |attempts|
  {
    if attempts == [] then Step(g, [])
    else
      var a := attempts[0];
      var s := GuessStep(g, a.player, a.text, a.now);
      var rest := GuessAll(s.game, attempts[1..]);
      Step(rest.game, s.events + rest.events)
  }

  /** How many of `events` announce a correct guess. */
  function Wins(events: seq<Event>): nat {
    if events == [] then 0 else (if events[0].GuessedRight? then 1 else 0) + Wins(events[1..])
  }

  lemma {:induction false} WinsAppend(a: seq<Event>, b: seq<Event>)
    ensures Wins(a + b) == Wins(a) + Wins(b)
  {
    if a != [] {
      assert (a + b)[1..] == a[1..] + b;
      WinsAppend(a[1..], b);
    } else {
      assert a + b == b;
    }
  }

  /** Once the round is over, no guess, however correct, credits anyone or broadcasts anything. */
  lemma {:induction false} GuessesAfterFinaliseDoNothing(g: Game, attempts: seq<Attempt>)
    requires g.status == Idle
    ensures GuessAll(g, attempts) == Step(g, [])
    decreases |attempts|
  {
    if attempts != [] {
      var a := attempts[0];
      assert GuessStep(g, a.player, a.text, a.now) == Step(g, []);
      GuessesAfterFinaliseDoNothing(g, attempts[1..]);
    }
  }

  /**
   * However many guesses reach one round, in whatever order and at whatever
   * instants, at most one of them is credited; with no round, none is.
   */
  lemma {:induction false} AtMostOneWinnerPerRound(g: Game, attempts: seq<Attempt>)
    ensures Wins(GuessAll(g, attempts).events) <= (if g.status.Ongoing? then 1 else 0)
    decreases |attempts|
  {
    if attempts != [] {
      var a := attempts[0];
      var s := GuessStep(g, a.player, a.text, a.now);
      var rest := GuessAll(s.game, attempts[1..]);
      WinsAppend(s.events, rest.events);
      if s.game.status == Idle {
        GuessesAfterFinaliseDoNothing(s.game, attempts[1..]);
      } else {
        AtMostOneWinnerPerRound(s.game, attempts[1..]);
      }
    }
  }

  /** Points accumulate: winning two rounds worth `a` and then `b` adds `a + b`. */
  lemma ScoreAccumulates(g: Game, words: seq<DatamuseRes>, player: string, d1: nat, d2: nat, t1: int, t2: int, t3: int, t4: int,
                         pick1: nat, pick2: nat, draws1: nat -> nat, draws2: nat -> nat)
    requires |words| > 0 && !IsLive(g.status, t1)
    requires t1 <= t2 <= t1 + d1 && t2 <= t3 && t3 <= t4 <= t3 + d2
    ensures
      var g1 := StartStep(g, words, d1, t1, pick1, draws1).game;
      var a := g1.status.info.score;
      var g2 := GuessStep(g1, player, g1.status.info.answer, t2).game;
      var g3 := StartStep(g2, words, d2, t3, pick2, draws2).game;
      var b := g3.status.info.score;
      var g4 := GuessStep(g3, player, g3.status.info.answer, t4).game;
      PointsOf(g4.points, player) == PointsOf(g.points, player) + a + b
  {
    var g1 := StartStep(g, words, d1, t1, pick1, draws1).game;
    GuessCorrect(g1, player, g1.status.info.answer, t2);
    var g2 := GuessStep(g1, player, g1.status.info.answer, t2).game;
    var g3 := StartStep(g2, words, d2, t3, pick2, draws2).game;
    GuessCorrect(g3, player, g3.status.info.answer, t4);
  }

  // ---- The engine object ----

  /** Collects the word's letters into a buffer, shuffles the buffer in place and reads it back. */
  method Scramble(word: string, draws: nat -> nat) returns (shuffled: string)
    ensures shuffled == Shuffle.Shuffled(word, draws)
    ensures multiset(shuffled) == multiset(word)
  {
    var chars := new char[|word|](i requires 0 <= i < |word| => word[i]);
    assert chars[..] == word;
    Shuffle.ShuffleInPlace(chars, draws);
    shuffled := chars[..];
    Shuffle.ShuffledIsPermutation(word, draws);
  }

  /** The broadcast sender `tx`: every message sent on it, in order. */
  class Broadcast {
    var sent: seq<Event>

    constructor ()
      ensures sent == []
    {
      sent := [];
    }

    method Send(e: Event)
      modifies this
      ensures sent == old(sent) + [e]
    {
      sent := sent + [e];
    }
  }

  class Anagram {
    const words: seq<DatamuseRes>
    const tx: Broadcast
    var players: set<string>
    var roundStatus: RoundStatus
    var playerToPoints: map<string, nat>
    var handle: Option<Timer>

    function State(): Game
      reads this
    {
      Game(players, roundStatus, playerToPoints, handle)
    }

    ghost predicate Valid()
      reads this
    {
      Consistent(State(), words)
    }

    /** `Anagram::new` with the pool already fetched: no players, no round, no points, no timer. */
    constructor (words: seq<DatamuseRes>)
      ensures Valid() && fresh(tx) && tx.sent == []
      ensures this.words == words && State() == Game({}, Idle, map[], None)
    {
      this.words := words;
      tx := new Broadcast();
      players := {};
      roundStatus := Idle;
      playerToPoints := map[];
      handle := None;
    }

    /** Registers `name` unless it is taken; says whether it was added. */
    method InsertPlayer(name: string) returns (inserted: bool)
      modifies this`players
      ensures inserted <==> name !in old(players)
      ensures players == old(players) + {name}
    {
      if name in players {
        return false;
      }
      players := players + {name};
      return true;
    }

    /** Unregisters `name`; an absent name is a no-op. */
    method RemovePlayer(name: string)
      modifies this`players
      ensures players == old(players) - {name}
    {
      players := players - {name};
    }

    method EnsureState(now: int)
      requires Valid()
      modifies this`roundStatus
      ensures Valid()
      ensures roundStatus == Expire(old(roundStatus), now)
    {
      match roundStatus {
        case Ongoing(status) =>
          if status.endsAt < now {
            roundStatus := Idle;
          }
        case Idle =>
      }
    }

    method Guess(player: string, guess: string, now: int)
      requires Valid()
      modifies this, tx
      ensures Valid()
      ensures State() == GuessStep(old(State()), player, guess, now).game
      ensures tx.sent == old(tx.sent) + GuessStep(old(State()), player, guess, now).events
    {
      EnsureState(now);
      if roundStatus.Ongoing? {
        var status := roundStatus.info;
        if guess == status.answer {
          var earlier := if player in playerToPoints then playerToPoints[player] else 0;
          playerToPoints := playerToPoints[player := earlier + status.score];
          tx.Send(GuessedRight(player, playerToPoints[player], status.score));
          Finalise();
        } else {
          tx.Send(KeepGuessing(player));
        }
      }
    }

    method Start(duration: nat, now: int, pick: nat, draws: nat -> nat)
      requires Valid()
      requires !IsLive(roundStatus, now) ==> |words| > 0
      modifies this, tx
      ensures Valid()
      ensures State() == StartStep(old(State()), words, duration, now, pick, draws).game
      ensures tx.sent == old(tx.sent) + StartStep(old(State()), words, duration, now, pick, draws).events
    {
      ghost var before := State();
      EnsureState(now);
      if roundStatus.Ongoing? {
        tx.Send(PleaseWait(roundStatus.info.endsAt - now));
        return;
      }
      assert roundStatus == Idle;
      var random := words[pick % |words|];
      var shuffled := Scramble(random.word, draws);
      var endsAt := now + duration;
      tx.Send(WordAnnounced(shuffled, random.word, duration));
      roundStatus := Ongoing(GameInfo(random.word, shuffled, random.score, endsAt));
      handle := Some(Timer(random.word, endsAt, false));
      StartPreservesConsistent(before, words, duration, now, pick, draws);
    }

    method Finalise()
      modifies this`roundStatus, this`handle
      ensures Valid()
      ensures State() == Finalised(old(State()))
    {
      match handle {
        case Some(h) => handle := Some(h.(aborted := true));
        case None =>
      }
      roundStatus := Idle;
    }
  }
}
