/** The Hangman game of `play_hangman`: a secret word drawn from a fixed list,
    a history of guessed letters and a budget of six wrong guesses. The game
    keeps its state in three local variables, so the model is a set of methods
    over values: one guess step, the masked display, the victory check and
    the game loop that ties them together. */
module Hangman {
  import opened Text

  /** The word list `random.choice` draws from. */
  const Words: seq<string> := ["python", "intern", "code", "alpha", "game"]

  /** The number of wrong guesses a game allows. */
  const MaxAttempts: int := 6

  /** The placeholder the display shows for a hidden letter. */
  const Hidden: char := '_'

  /** What one guess did to the game. */
  datatype GuessOutcome = Invalid | Duplicate | Hit | Miss

  /** How `play_hangman` left its loop. `InputExhausted` stands for the guess
      sequence running out while the game is still open. */
  datatype Ending = Won | Lost | InputExhausted

  // ---------------------------------------------------------------------------
  // Specification functions

  /** A lowered guess is accepted when it is exactly one letter. */
  predicate IsSingleLetter(g: string)
  {
    |g| == 1 && IsLetter(g[0])
  }

  predicate NoDuplicates(s: seq<char>)
  {
    forall i, j :: 0 <= i < j < |s| ==> s[i] != s[j]
  }

  function Elems(s: seq<char>): set<char>
  {
    set c | c in s
  }

  /** The number of guessed letters that do not occur in the secret. */
  function MissCount(secret: string, guessed: seq<char>): nat
  {
    if guessed == [] then 0
    else
      MissCount(secret, guessed[..|guessed| - 1])
      + (if guessed[|guessed| - 1] in secret then 0 else 1)
  }

  /** Every letter of the secret has been guessed. */
  predicate Revealed(secret: string, guessed: seq<char>)
  {
    forall k :: 0 <= k < |secret| ==> secret[k] in guessed
  }

  /** What the display shows for one letter of the secret. */
  function Shown(letter: char, guessed: seq<char>): char
  {
    if letter in guessed then letter else Hidden
  }

  /** The state the game loop keeps: distinct lower-case letters, and an
      attempt counter that is six minus the wrong guesses and never negative. */
  predicate GameInvariant(secret: string, guessed: seq<char>, attemptsLeft: int)
  {
    && NoDuplicates(guessed)
    && (forall i :: 0 <= i < |guessed| ==> IsLowerLetter(guessed[i]))
    && attemptsLeft == MaxAttempts - MissCount(secret, guessed)
    && attemptsLeft >= 0
  }

  /** The set of letters a sequence of raw guesses offers, once lowered. */
  function Letters(guesses: seq<string>): set<char>
  {
    if guesses == [] then {}
    else
      var g := Lower(guesses[|guesses| - 1]);
      Letters(guesses[..|guesses| - 1]) + (if IsSingleLetter(g) then {g[0]} else {})
  }

  /** The history and the attempts after one guess, as main.py lines 38-57
      leave them. */
  function NextState(secret: string, guessed: seq<char>, attemptsLeft: int, input: string): (seq<char>, int)
  {
    var g := Lower(input);
    if !IsSingleLetter(g) || g[0] in guessed then (guessed, attemptsLeft)
    else if g[0] in secret then (guessed + [g[0]], attemptsLeft)
    else (guessed + [g[0]], attemptsLeft - 1)
  }

  /** The game replayed one guess at a time from the top of its loop: it is
      lost once no attempts are left, won once the word is revealed, left
      open once the guesses run out, and otherwise takes the next guess. */
  function Replay(secret: string, guessed: seq<char>, attemptsLeft: int, guesses: seq<string>)
    : (Ending, seq<char>, int)
    decreases |guesses|
  {
    if attemptsLeft <= 0 then (Lost, guessed, attemptsLeft)
    else if Revealed(secret, guessed) then (Won, guessed, attemptsLeft)
    else if guesses == [] then (InputExhausted, guessed, attemptsLeft)
    else
      var next := NextState(secret, guessed, attemptsLeft, guesses[0]);
      Replay(secret, next.0, next.1, guesses[1..])
  }

  // ---------------------------------------------------------------------------
  // Lemmas

  /** No word of the list contains the placeholder, and none is empty. */
  lemma WordsArePlain(secret: string)
    requires secret in Words
    ensures Hidden !in secret && |secret| > 0
  {
  }

  lemma {:induction false} MissCountNoneMissed(secret: string, guessed: seq<char>)
    requires forall i :: 0 <= i < |guessed| ==> guessed[i] in secret
    ensures MissCount(secret, guessed) == 0
  {
    if guessed != [] {
      MissCountNoneMissed(secret, guessed[..|guessed| - 1]);
    }
  }

  lemma {:induction false} MissCountAllMissed(secret: string, guessed: seq<char>)
    requires forall i :: 0 <= i < |guessed| ==> guessed[i] !in secret
    ensures MissCount(secret, guessed) == |guessed|
  {
    if guessed != [] {
      MissCountAllMissed(secret, guessed[..|guessed| - 1]);
    }
  }

  /** A duplicate-free history has as many letters as it has entries. */
  lemma {:induction false} DistinctCount(s: seq<char>)
    requires NoDuplicates(s)
    ensures |Elems(s)| == |s|
  {
    if s != [] {
      var init := s[..|s| - 1];
      DistinctCount(init);
      assert Elems(s) == Elems(init) + {s[|s| - 1]} by {
        assert s == init + [s[|s| - 1]];
      }
      assert s[|s| - 1] !in Elems(init);
    }
  }

  /** The letters of a prefix of the guesses are letters of all of them. */
  lemma {:induction false} LettersOfPrefix(guesses: seq<string>, n: nat)
    requires n <= |guesses|
    ensures Letters(guesses[..n]) <= Letters(guesses)
  {
    if n < |guesses| {
      LettersOfPrefix(guesses[..|guesses| - 1], n);
      assert guesses[..|guesses| - 1][..n] == guesses[..n];
    } else {
      assert guesses[..n] == guesses;
    }
  }

  /** The letters of one more guess. */
  lemma LettersSnoc(guesses: seq<string>, n: nat)
    requires n < |guesses|
    ensures var g := Lower(guesses[n]);
      Letters(guesses[..n + 1]) == Letters(guesses[..n]) + (if IsSingleLetter(g) then {g[0]} else {})
  {
    assert guesses[..n + 1][..n] == guesses[..n];
  }

  /** While the game is open, a replay takes the next guess. */
  lemma ReplayTakesGuess(secret: string, guessed: seq<char>, attemptsLeft: int, guesses: seq<string>,
                         guessed': seq<char>, attemptsLeft': int)
    requires attemptsLeft > 0 && !Revealed(secret, guessed) && guesses != []
    requires (guessed', attemptsLeft') == NextState(secret, guessed, attemptsLeft, guesses[0])
    ensures Replay(secret, guessed, attemptsLeft, guesses) == Replay(secret, guessed', attemptsLeft', guesses[1..])
  {
  }

  /** "code" guessed c, x, o, d, e: the miss x costs one attempt and the
      word is revealed after e, so the game is won with five attempts left. */
  lemma ReplayExample(w: string, gs: seq<string>)
    requires w == "code" && gs == ["c", "x", "o", "d", "e"]
    ensures Replay(w, [], MaxAttempts, gs) == (Won, "cxode", 5)
  {
    assert w[0] !in [] && w[1] !in "c" && w[1] !in "cx" && w[2] !in "cxo" && w[3] !in "cxod";
    assert Lower(gs[0]) == "c" && Lower(gs[1]) == "x" && Lower(gs[2]) == "o";
    assert Lower(gs[3]) == "d" && Lower(gs[4]) == "e";
    assert [] + ['c'] == "c" && "c" + ['x'] == "cx" && "cx" + ['o'] == "cxo";
    assert "cxo" + ['d'] == "cxod" && "cxod" + ['e'] == "cxode";
    ReplayTakesGuess(w, [], 6, gs, "c", 6);
    ReplayTakesGuess(w, "c", 6, gs[1..], "cx", 5);
    ReplayTakesGuess(w, "cx", 5, gs[2..], "cxo", 5);
    ReplayTakesGuess(w, "cxo", 5, gs[3..], "cxod", 5);
    ReplayTakesGuess(w, "cxod", 5, gs[4..], "cxode", 5);
    assert Revealed(w, "cxode");
  }

  // ---------------------------------------------------------------------------
  // Operations

  /** One pass through the body of the game loop after the victory check
      (main.py lines 38-57): lower the raw input, reject it when it is not a
      single letter or was guessed before, otherwise record it and charge one
      attempt when the secret does not contain it. */
  method ProcessGuess(secret: string, guessed: seq<char>, attemptsLeft: int, input: string)
    returns (guessed': seq<char>, attemptsLeft': int, outcome: GuessOutcome)
    requires attemptsLeft > 0
    ensures var g := Lower(input);
      && (outcome == Invalid <==> !IsSingleLetter(g))
      && (outcome == Duplicate <==> IsSingleLetter(g) && g[0] in guessed)
      && (outcome == Hit <==> IsSingleLetter(g) && g[0] !in guessed && g[0] in secret)
      && (outcome == Miss <==> IsSingleLetter(g) && g[0] !in guessed && g[0] !in secret)
    // rejected guesses change nothing
    ensures outcome in {Invalid, Duplicate} ==> guessed' == guessed && attemptsLeft' == attemptsLeft
    // an accepted guess is appended once, at the end
    ensures outcome in {Hit, Miss} ==> guessed' == guessed + [Lower(input)[0]]
    ensures outcome == Hit ==> attemptsLeft' == attemptsLeft
    ensures outcome == Miss ==> attemptsLeft' == attemptsLeft - 1
    ensures attemptsLeft' >= 0
    // a wrong guess never reveals a letter
    ensures outcome == Miss ==> (Revealed(secret, guessed') <==> Revealed(secret, guessed))
    ensures Elems(guessed') == Elems(guessed) + (if outcome == Invalid then {} else {Lower(input)[0]})
    ensures GameInvariant(secret, guessed, attemptsLeft) ==> GameInvariant(secret, guessed', attemptsLeft')
    ensures (guessed', attemptsLeft') == NextState(secret, guessed, attemptsLeft, input)
  {
    var guess := Lower(input);
    if |guess| != 1 || !IsLetter(guess[0]) {
      return guessed, attemptsLeft, Invalid;
    }
    var letter := guess[0];
    if letter in guessed {
      return guessed, attemptsLeft, Duplicate;
    }
    guessed' := guessed + [letter];
    assert guessed'[..|guessed|] == guessed;
    assert Elems(guessed') == Elems(guessed) + {letter};
    if letter in secret {
      attemptsLeft', outcome := attemptsLeft, Hit;
    } else {
      attemptsLeft', outcome := attemptsLeft - 1, Miss;
    }
  }

  /** The masked word of main.py lines 23-28: for each letter of the secret,
      the letter itself when it has been guessed and the placeholder
      otherwise, each followed by a space. */
  method RenderDisplay(secret: string, guessed: seq<char>) returns (display: string)
    ensures |display| == 2 * |secret|
    ensures forall k :: 0 <= k < |secret| ==>
      display[2 * k] == Shown(secret[k], guessed) && display[2 * k + 1] == ' '
  {
    display := "";
    for i := 0 to |secret|
      invariant |display| == 2 * i
      invariant forall k :: 0 <= k < i ==>
        display[2 * k] == Shown(secret[k], guessed) && display[2 * k + 1] == ' '
    {
      if secret[i] in guessed {
        display := display + [secret[i]] + " ";
      } else {
        display := display + [Hidden] + " ";
      }
    }
  }

  /** The victory check of main.py line 33: no placeholder is left in the
      display. For a secret without the placeholder character that is the
      case exactly when every letter of the secret has been guessed. */
  method CheckVictory(secret: string, guessed: seq<char>) returns (won: bool)
    requires Hidden !in secret
    ensures won <==> Revealed(secret, guessed)
  {
    var display := RenderDisplay(secret, guessed);
    won := Hidden !in display;
    if Revealed(secret, guessed) {
      forall j | 0 <= j < |display|
        ensures display[j] != Hidden
      {
        var k := j / 2;
        assert j == 2 * k || j == 2 * k + 1;
      }
    } else {
      var k :| 0 <= k < |secret| && secret[k] !in guessed;
      assert display[2 * k] == Hidden;
    }
  }

  /** `play_hangman` with `random.choice` replaced by the `secret` parameter
      and `input` by the `guesses` sequence: start with no guesses and six
      attempts, and loop while attempts are left, checking for victory before
      each guess. The game is lost exactly when the attempts reach zero. */
  method Play(secret: string, guesses: seq<string>)
    returns (ending: Ending, guessed: seq<char>, attemptsLeft: int)
    requires secret in Words
    // the game stops at the first guess that reveals the word or uses up the attempts
    ensures (ending, guessed, attemptsLeft) == Replay(secret, [], MaxAttempts, guesses)
    ensures GameInvariant(secret, guessed, attemptsLeft)
    ensures ending == Won <==> Revealed(secret, guessed)
    ensures ending == Lost <==> attemptsLeft == 0
    ensures Elems(guessed) <= Letters(guesses)
    // every guessed letter occurs in the secret and between them they cover it
    ensures (forall c :: c in Letters(guesses) ==> c in secret)
         && (forall k :: 0 <= k < |secret| ==> secret[k] in Letters(guesses))
         ==> ending == Won && attemptsLeft == MaxAttempts
    // at least six different wrong letters and no right one
    ensures (forall c :: c in Letters(guesses) ==> c !in secret) && |Letters(guesses)| >= MaxAttempts
         ==> ending == Lost
  {
    WordsArePlain(secret);
    guessed := [];
    attemptsLeft := MaxAttempts;
    ending := InputExhausted;
    var i := 0;
    while attemptsLeft > 0
      invariant 0 <= i <= |guesses|
      invariant GameInvariant(secret, guessed, attemptsLeft)
      invariant Elems(guessed) == Letters(guesses[..i])
      invariant attemptsLeft == 0 ==> !Revealed(secret, guessed)
      invariant ending == InputExhausted
      invariant Replay(secret, guessed, attemptsLeft, guesses[i..]) == Replay(secret, [], MaxAttempts, guesses)
      decreases |guesses| - i
    {
      var won := CheckVictory(secret, guessed);
      if won {
        ending := Won;
        break;
      }
      if i == |guesses| {
        break;
      }
      assert guesses[i..][1..] == guesses[i + 1..];
      var outcome;
      guessed, attemptsLeft, outcome := ProcessGuess(secret, guessed, attemptsLeft, guesses[i]);
      LettersSnoc(guesses, i);
      i := i + 1;
    }
    if attemptsLeft == 0 {
      ending := Lost;
    }
    LettersOfPrefix(guesses, i);
    if forall c :: c in Letters(guesses) ==> c in secret {
      MissCountNoneMissed(secret, guessed);
      if ending == InputExhausted {
        assert guesses[..i] == guesses;
      }
    }
    if forall c :: c in Letters(guesses) ==> c !in secret {
      MissCountAllMissed(secret, guessed);
      assert secret[0] !in guessed;
      if ending == InputExhausted && |Letters(guesses)| >= MaxAttempts {
        assert guesses[..i] == guesses;
        DistinctCount(guessed);
      }
    }
  }
}
