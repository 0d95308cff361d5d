/** The bodies of the `/start`, `/score` and `/help` callbacks. */
module Commands {
  import opened Wrappers
  import opened RustStr
  import opened Anagram
  import CommandHandler

  /** The round length `/start` uses when it is given none. */
  const DefaultDuration: nat := 30

  /**
   * The duration `/start` asks for: 30 without a second word, the second
   * word read as a u32 otherwise, and `None` when that word is not one.
   */
  function StartDuration(message: string): (r: Option<nat>)
    ensures r.Some? ==> r.value <= MaxU32
  {
    var tokens := Tokens(message);
    if |tokens| > 1 then ParseU32(tokens[1]) else Some(DefaultDuration)
  }

  /** With nothing but whitespace after the command word, the round lasts 30 seconds. */
  lemma StartDurationDefault(command: string, w: string)
    requires |command| > 0 && NoWhitespace(command)
    requires |w| > 0 && AllWhitespace(w)
    ensures StartDuration(command) == Some(30)
    ensures StartDuration(command + w) == Some(30)
  {
    TokensOfWord(command);
    TokensOfSeparated(command, w, "");
    assert command + w + "" == command + w;
  }

  /**
   * Only the second word decides: whatever runs of whitespace separate the
   * words, the duration is that word read as a u32, and everything after it
   * is ignored.
   */
  lemma StartDurationReadsSecondWord(command: string, w: string, t: string, w2: string, rest: string)
    requires |command| > 0 && NoWhitespace(command)
    requires |w| > 0 && AllWhitespace(w) && |w2| > 0 && AllWhitespace(w2)
    requires |t| > 0 && NoWhitespace(t)
    ensures StartDuration(command + w + t) == ParseU32(t)
    ensures StartDuration(command + w + t + w2 + rest) == ParseU32(t)
  {
    TokensOfSeparated(command, w, t);
    TokensOfWord(t);
    TokensOfSeparated(command, w, t + w2 + rest);
    TokensOfSeparated(t, w2, rest);
    assert command + w + t + w2 + rest == command + w + (t + w2 + rest);
  }

  lemma DecimalFormsHaveNoWhitespace(n: nat)
    ensures NoWhitespace(Decimal(n)) && NoWhitespace("+" + Decimal(n)) && NoWhitespace("0" + Decimal(n))
  {
    var d := Decimal(n);
    forall c: char, i | c in {'+', '0'} && 0 <= i < |[c] + d| ensures !IsAsciiWhitespace(([c] + d)[i]) {
      if i > 0 { assert ([c] + d)[i] == d[i - 1]; assert IsDigit(d[i - 1]); }
    }
    forall i | 0 <= i < |d| ensures !IsAsciiWhitespace(d[i]) {
      assert IsDigit(d[i]);
    }
    assert "+" + d == ['+'] + d;
    assert "0" + d == ['0'] + d;
  }

  /** A u32 written in decimal after the command word, also with a leading `+` or `0`, is the duration; later words are ignored. */
  lemma StartDurationGiven(command: string, w: string, n: nat, w2: string, rest: string)
    requires |command| > 0 && NoWhitespace(command)
    requires |w| > 0 && AllWhitespace(w) && |w2| > 0 && AllWhitespace(w2)
    requires n <= MaxU32
    ensures StartDuration(command + w + Decimal(n)) == Some(n)
    ensures StartDuration(command + w + Decimal(n) + w2 + rest) == Some(n)
    ensures StartDuration(command + w + ("+" + Decimal(n))) == Some(n)
    ensures StartDuration(command + w + ("0" + Decimal(n)) + w2 + rest) == Some(n)
  {
    DecimalFormsHaveNoWhitespace(n);
    ParseU32OfDecimal(n);
    StartDurationReadsSecondWord(command, w, Decimal(n), w2, rest);
    StartDurationReadsSecondWord(command, w, "+" + Decimal(n), w2, rest);
    StartDurationReadsSecondWord(command, w, "0" + Decimal(n), w2, rest);
  }

  /**
   * A second word holding a character other than a digit (letters, a `-`,
   * a `.`; one leading `+` excepted), or a number beyond `u32::MAX`, is refused.
   */
  lemma StartDurationRefused(command: string, w: string, t: string, i: nat, n: nat)
    requires |command| > 0 && NoWhitespace(command)
    requires |w| > 0 && AllWhitespace(w)
    requires |t| > 0 && NoWhitespace(t)
    requires i < |t| && !IsDigit(t[i]) && (i > 0 || t[0] != '+')
    requires n > MaxU32
    ensures StartDuration(command + w + t) == None
    ensures StartDuration(command + w + Decimal(n)) == None
  {
    StartDurationReadsSecondWord(command, w, t, " ", "");
    ParseU32RejectsNonDigit(t, i);
    DecimalFormsHaveNoWhitespace(n);
    StartDurationReadsSecondWord(command, w, Decimal(n), " ", "");
    ParseU32Overflow(n);
  }

  /** Concrete lines: letters are refused, a tab and a signed, zero-padded number are accepted, a bare command gets 30. */
  lemma StartDurationExamples()
    ensures StartDuration("/start abc") == None
    ensures StartDuration("/start 5s") == None
    ensures StartDuration("/start\t+07  x") == Some(7)
    ensures StartDuration("/start") == Some(30)
  {
    var c := "/start";
    assert NoWhitespace(c) by {
      forall i | 0 <= i < |c| ensures !IsAsciiWhitespace(c[i]) { }
    }
    assert AllWhitespace(" ") && AllWhitespace("\t") && AllWhitespace("  ");
    assert "/start abc" == c + " " + "abc";
    StartDurationRefused(c, " ", "abc", 0, MaxU32 + 1);
    assert "/start 5s" == c + " " + "5s";
    StartDurationRefused(c, " ", "5s", 1, MaxU32 + 1);
    assert "/start\t+07  x" == c + "\t" + "+07" + "  " + "x";
    StartDurationReadsSecondWord(c, "\t", "+07", "  ", "x");
    assert "+07"[1..] == "07";
    assert DigitsValue("07") == 7 by {
      assert "07"[..1] == "0";
      assert "0"[..0] == [];
    }
    StartDurationDefault(c, " ");
  }

  /**
   * `handle_start`: a refused duration draws one "invalid format" message
   * to the author and leaves the game alone; otherwise `start` runs with
   * the duration read.
   */
  method HandleStart(game: Anagram, author: string, message: string, now: int, pick: nat, draws: nat -> nat)
    requires game.Valid()
    requires StartDuration(message).Some? && !IsLive(game.roundStatus, now) ==> |game.words| > 0
    modifies game, game.tx
    ensures game.Valid()
    ensures StartDuration(message).None? ==>
      && game.State() == old(game.State())
      && game.tx.sent == old(game.tx.sent) + [InvalidStartFormat(author)]
    ensures StartDuration(message).Some? ==>
      var r := StartStep(old(game.State()), game.words, StartDuration(message).value, now, pick, draws);
      && game.State() == r.game
      && game.tx.sent == old(game.tx.sent) + r.events
  {
    var duration := DefaultDuration;
    var tokens := Tokens(message);
    if |tokens| > 1 {
      match ParseU32(tokens[1]) {
        case Some(number) =>
          duration := number;
        case None =>
          game.tx.Send(InvalidStartFormat(author));
          return;
      }
    }
    game.Start(duration, now, pick, draws);
  }

  /** `handle_score`: the message sent to the author, carrying their ledger entry or 0 without one. */
  function HandleScore(points: map<string, nat>, author: string): (reply: Event)
    ensures reply.YourScore? && reply.player == author
    ensures author in points ==> reply.points == points[author]
    ensures author !in points ==> reply.points == 0
  {
    YourScore(author, PointsOf(points, author))
  }

  /** After a correct guess, `/score` reports the guesser's earlier score plus the round's reward. */
  lemma ScoreAfterWin(g: Game, player: string, now: int)
    requires IsLive(g.status, now)
    ensures HandleScore(GuessStep(g, player, g.status.info.answer, now).game.points, player).points
         == HandleScore(g.points, player).points + g.status.info.score
  {
    GuessCorrect(g, player, g.status.info.answer, now);
  }

  /** `handle_help`: the fixed command listing, addressed to the author. */
  function HandleHelp(author: string): (reply: Event)
    ensures reply.HelpText? && reply.author == author
  {
    HelpText(author)
  }

  /** Runs the callback `cmd` in the context of `author`'s `message`. */
  method Run(cmd: CommandHandler.Command, game: Anagram, author: string, message: string,
             now: int, pick: nat, draws: nat -> nat)
    requires game.Valid()
    requires cmd.StartCommand? && StartDuration(message).Some? && !IsLive(game.roundStatus, now) ==> |game.words| > 0
    modifies game, game.tx
    ensures game.Valid()
    ensures !cmd.StartCommand? ==> game.State() == old(game.State())
    ensures cmd.ScoreCommand? ==> game.tx.sent == old(game.tx.sent) + [HandleScore(old(game.playerToPoints), author)]
    ensures cmd.HelpCommand? ==> game.tx.sent == old(game.tx.sent) + [HandleHelp(author)]
    ensures cmd.StartCommand? && StartDuration(message).None? ==>
      game.State() == old(game.State()) && game.tx.sent == old(game.tx.sent) + [InvalidStartFormat(author)]
    ensures cmd.StartCommand? && StartDuration(message).Some? ==>
      var r := StartStep(old(game.State()), game.words, StartDuration(message).value, now, pick, draws);
      game.State() == r.game && game.tx.sent == old(game.tx.sent) + r.events
  {
    match cmd {
      case StartCommand =>
        HandleStart(game, author, message, now, pick, draws);
      case ScoreCommand =>
        game.tx.Send(HandleScore(game.playerToPoints, author));
      case HelpCommand =>
        game.tx.Send(HandleHelp(author));
    }
  }
}
