# Hangman and stock portfolio tracker, modelled in Dafny

This project models the logic of two small command-line Python scripts.

**Hangman** (`CodeAlpha_Hangman_Game/main.py`, module `Hangman` in
`hangman.dfy`). The secret word is drawn from the five-word list. The game
keeps a history of guessed letters and starts with six attempts. The loop runs
while attempts are left. Each pass renders the word with `_` for hidden
letters, stops on victory when no `_` remains, and otherwise reads a guess.
The guess is lowered, then:
- it is rejected when it is not a single letter;
- it is rejected when it was guessed before;
- otherwise it is appended to the history, and it costs one attempt when
  the word does not contain it.

The game is over when the attempts reach zero. `ProcessGuess` is one guess
step, and `NextState` is the state it moves to. `Replay` is the whole game as a
function of the guesses: it stops at the first point where the attempts are
used up or the word is revealed. `RenderDisplay` builds the masked word with a loop. `CheckVictory` is
the `_` test. `Play` is the whole loop, and keeps `GameInvariant`: the
history has no duplicates and holds only lower-case letters, and the attempts
equal six minus the wrong guesses and are never negative.

**Portfolio tracker** (`CodeAlpha_Stock_Portfolio_Tracker/main.py`, module
`Portfolio` in `portfolio.dfy`). A ticker is priced from the fixed table
`HARD_CODED_PRICES`. When the table lacks the ticker, the user may confirm
with "y" and type a manual price; otherwise the ticker is skipped. `Step` is
one pass of the collection loop in `main`, and `CollectHoldings` is that loop.
`Collected` says which portfolio the loop builds from the answers it gets.
`Summarize` folds the portfolio into one `(ticker, quantity, price, value)` row
per holding and a running total. `Run` is `main` without its console and file
output. `AddStock` is `add_stock`: it appends to a caller's list (the class
`HoldingList`) in place. `PromptNonempty` and `PromptFloat` are the re-prompting
readers, run over a finite sequence of answers.

`text.dfy` (module `Text`) holds the ASCII forms of `strip`, `lower`, `upper`
and `isalpha`. `wrappers.dfy` holds `Option`, the result of a parse that may
fail.

Two points where the code departs from what one would expect, and the model
follows the code:
- A holding's quantity and price would naturally be non-negative, but the
  code accepts any number `float()` parses. The model accepts any real.
  `TotalValueNonNegative` shows that the total is non-negative when the
  inputs are.
- An unparsable quantity skips the row in `main` (lines 149-153). In
  `add_stock` it is re-prompted (line 63). The model keeps both behaviours.

## Model

| member | source | states |
|---|---|---|
| Hangman.WordsArePlain | CodeAlpha_Hangman_Game/main.py:6 | No word of the fixed list is empty or contains the `_` placeholder, so the `_` test of the display is sound for every secret the game can draw |
| Hangman.ProcessGuess | CodeAlpha_Hangman_Game/main.py:38-57 | The outcome is Invalid exactly when the lowered input is not one letter, Duplicate exactly when that letter is already in the history, and otherwise Hit or Miss as the secret contains it or not. Invalid and Duplicate leave history and attempts unchanged. Hit and Miss append the letter once at the end. Hit keeps the attempts and Miss takes one off. Attempts never go negative, a Miss never changes whether the word is revealed, and the game invariant is preserved. The new history and attempts are the state `NextState` gives |
| Hangman.RenderDisplay | CodeAlpha_Hangman_Game/main.py:23-28 | The display has two characters per secret letter: the letter itself when it has been guessed, otherwise `_`, then a space |
| Hangman.CheckVictory | CodeAlpha_Hangman_Game/main.py:32-35 | For a secret without `_`, the display has no `_` exactly when every letter of the secret has been guessed |
| Hangman.Play | CodeAlpha_Hangman_Game/main.py:9-61 | The ending, history and attempts are exactly those of `Replay` from no guesses and six attempts: guesses are taken one at a time until the word is revealed, the attempts run out or the input ends, and later guesses are ignored. The final state keeps the game invariant. The game ends in victory exactly when the word is revealed, and ends lost exactly when the attempts are zero, so the two never coincide. The history holds only letters that were offered. Guesses whose letters all occur in the secret and cover it win with all six attempts left. Six or more distinct letters, none of them in the secret, lose |
| Hangman.ReplayTakesGuess | CodeAlpha_Hangman_Game/main.py:20-57 | One-step unfolding of `Replay`, used by `ReplayExample`: while attempts are left and the word is hidden, the outcome on a list of guesses is the outcome on the rest of the list from the state `NextState` gives for the first guess |
| Hangman.ReplayExample | CodeAlpha_Hangman_Game/main.py:20-57 | With secret "code", the guesses c, x, o, d, e win with five attempts left and history "cxode" |
| Hangman.DistinctCount | CodeAlpha_Hangman_Game/main.py:45-50 | A history kept free of duplicates has exactly as many distinct letters as entries |
| Hangman.MissCountAllMissed | CodeAlpha_Hangman_Game/main.py:53-57 | When no guessed letter is in the secret, every guess was charged an attempt |
| Hangman.MissCountNoneMissed | CodeAlpha_Hangman_Game/main.py:53-57 | When every guessed letter is in the secret, no attempt was charged |
| Hangman.LettersOfPrefix | CodeAlpha_Hangman_Game/main.py:38-50 | The letters offered by a prefix of the guesses are among the letters offered by all of them |
| Text.StripIsEmpty | CodeAlpha_Stock_Portfolio_Tracker/main.py:144-146 | A line strips to the empty string exactly when it is all white space |
| Portfolio.NormalizeTicker | CodeAlpha_Stock_Portfolio_Tracker/main.py:144 | The lookup key is the stripped line, upper-cased: same length as the stripped line, empty exactly when the line is blank, with no lower-case letter, and agreeing with the stripped line position by position up to case |
| Text.Lower | CodeAlpha_Hangman_Game/main.py:38 | Lowering keeps the length and which positions hold letters, leaves no upper-case letter, changes nothing but upper-case letters, and puts each letter in its own lower-case form (each position agrees with the input up to case) |
| Text.Upper | CodeAlpha_Stock_Portfolio_Tracker/main.py:144 | Upper-casing keeps the length and which positions hold letters, leaves no lower-case letter, changes nothing but lower-case letters, and puts each letter in its own upper-case form (each position agrees with the input up to case) |
| Portfolio.Step | CodeAlpha_Stock_Portfolio_Tracker/main.py:144-171 | A pass ends collection exactly when the normalised ticker is empty. It appends exactly when the ticker is non-empty, the quantity parsed, and either the ticker is in the table or the answer strips and lowers to "y" and the manual price parsed. The holding then has that ticker and quantity, and the table's price for a listed ticker or the typed price otherwise. An invalid quantity, a declined manual entry or an invalid manual price append nothing |
| Portfolio.CollectHoldings | CodeAlpha_Stock_Portfolio_Tracker/main.py:140-171 | Starting from an empty list, the loop builds exactly the portfolio `Collected` describes for its answers |
| Portfolio.CollectedSnoc | CodeAlpha_Stock_Portfolio_Tracker/main.py:171 | While collection is open, one more pass either leaves the portfolio unchanged or appends its one holding at the end, with every earlier entry kept in place |
| Portfolio.CollectedStopsAtFinish | CodeAlpha_Stock_Portfolio_Tracker/main.py:144-146 | No answer after the first blank ticker reaches the portfolio |
| Portfolio.CollectedWellFormed | CodeAlpha_Stock_Portfolio_Tracker/main.py:143-171 | The portfolio has at most one holding per pass. Every holding was appended by some pass, has a non-empty upper-case ticker, and carries the table's price when its ticker is in the table, or otherwise the manual price that pass confirmed with "y" |
| Portfolio.Summarize | CodeAlpha_Stock_Portfolio_Tracker/main.py:84-106 | One row per holding, in portfolio order, each row being `(ticker, quantity, price, quantity*price)` of its holding. The total is the left-to-right running sum of the row values starting at 0, and it equals the sum of the holdings' values |
| Portfolio.RunningTotalIsTotalValue | CodeAlpha_Stock_Portfolio_Tracker/main.py:91-98 | Folding the row values left to right from 0 gives the sum of quantity times price over the portfolio |
| Portfolio.TotalValueSnoc | CodeAlpha_Stock_Portfolio_Tracker/main.py:98 | Appending a holding adds exactly its value to the total |
| Portfolio.TotalValueNonNegative | CodeAlpha_Stock_Portfolio_Tracker/main.py:95-98 | With non-negative quantities and prices, the total is non-negative |
| Portfolio.SummaryExample | CodeAlpha_Stock_Portfolio_Tracker/main.py:95-98 | 10 AAPL at 180 and 2 TSLA at 250 total 2300 |
| Portfolio.Run | CodeAlpha_Stock_Portfolio_Tracker/main.py:140-179 | `main` stops with no summary exactly when the collected portfolio is empty, so an empty portfolio is never summarised. Otherwise its rows and total are those of the collected portfolio |
| Portfolio.PromptNonempty | CodeAlpha_Stock_Portfolio_Tracker/main.py:26-34 | The returned value is never empty. It is the stripped form of the first answer that is not blank. The reader finds none exactly when every answer is blank |
| Portfolio.PromptFloat | CodeAlpha_Stock_Portfolio_Tracker/main.py:37-47 | The returned number is the first answer that parsed. None parsed exactly when the reader returns nothing |
| Portfolio.AddStock | CodeAlpha_Stock_Portfolio_Tracker/main.py:50-81 | Always returns true, because the ticker from `prompt_nonempty` is never empty and upper-casing keeps its length, so the `return False` branch is unreachable. A declined unlisted ticker leaves the list unchanged. Otherwise exactly one holding is appended at the end, with the upper-cased ticker, the quantity, and the table's price for a listed ticker or the manual price for an unlisted one confirmed with "y" |

## Left out

- Console I/O: prompts, messages, the welcome text, the printed `Word:` line (`display_word.strip()`) and the formatted summary table (main.py lines 100-105 of the tracker). Answers are parameters or sequences, and the game-over message is the `Lost` ending.
- `random.choice`: the secret is a parameter, required to be one of the five words.
- `save_to_csv`, `save_to_txt` and the save prompt at the end of `main`: file output, the `csv` module and the `datetime`-based file names are not part of this model.
- `float()` parsing: a typed number arrives as `Option<real>`. Arithmetic is exact real arithmetic, so IEEE-754 rounding, NaN, infinities and the `:.2f` formatting are not modelled. Totals are not claimed to match float sums bit for bit.
- Unicode: `strip`, `lower`, `upper` and `isalpha` are modelled on ASCII only. A non-ASCII letter guess such as "É" is `Invalid` in `ProcessGuess`, while Python lowers it to "é", accepts it as a letter and may charge an attempt. A non-ASCII space such as U+00A0 is not stripped, so a ticker line holding only such spaces becomes a ticker in the model, while Python strips it to "" and ends collection.
- End of input: Python raises `EOFError` when the console closes. The model's input sequences are finite instead. `Play` then ends with `InputExhausted`, `CollectHoldings` stops collecting, and `PromptNonempty`/`PromptFloat` return `None`.
- AddStock: takes the values its prompts return (`prompt_nonempty`'s answer, and two `prompt_float` numbers) rather than reading answers itself. The prompts themselves are `PromptNonempty` and `PromptFloat`.
- `add_stock` is never called by `main`. It is modelled on its own.
