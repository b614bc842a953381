# SpellCheckerManager in Dafny

This project models the checking core of `SpellCheckerManager`. That class loads a dictionary of words into a hash table, then checks a second stream of tokens against it. A token that is not in the dictionary goes through a retry loop that rewrites a working copy of it. The loop has seven one-shot rules, tried in a fixed priority order:

1. capitalisation;
2. possessive `'s`;
3. plural `s`;
4. agentive `r`;
5. gerund `ing`;
6. adverb `ly`;
7. past tense `d`.

A length guard switches off each rule the current word is too short for. Four of the rules look the rewritten word up at once. When no rule applies, the token is misspelled, and its original text is inserted into a list kept in case-insensitive order, with no exact duplicates. `spellCheck` counts the tokens and the dictionary lookups, and returns `"ArrayBasedList"` followed by the list's rendering.

Modules:

- `Hashing`:
  - `genHash` as a left fold in Java `int` arithmetic, with 32-bit wrap-around;
  - the loop method proved against the fold.
- `CaseFold`:
  - ASCII `isUpperCase` and `toLowerCase`;
  - `compareToIgnoreCase`, with its order laws.
- `Candidates`:
  - the sorted-insert scan as a function, with sortedness, distinctness, position and multiset lemmas;
  - the `[a, b, c]` rendering.
- `Rules`:
  - the flags `r1`..`r7`, the length guard and the priority chain;
  - the effect of each rule;
  - `Run`, the whole retry loop for one token as a recursive function, with termination, bound, priority and lookup-count lemmas.
- `Dictionary`: the hash table as a class holding a set of words and a probe counter.
- `Manager`, the class `SpellCheckerManager`:
  - the retry loop (`CheckToken`) and the list scan (`InsertSorted`), proved against `Run` and `Insert`;
  - `SpellCheck`, proved against the fold `CheckAll`;
  - the constructor's empty-input error, as the factory `Create`.

`lookup++` sits only in the `for` initialiser (SpellCheckerManager.java:87) and in the four re-checking rules (118, 128, 138, 152). The loop's later dictionary tests are not counted, so a token adds one lookup plus one per re-check (`Rules.Lookups`).

## Model

All source paths are under `SpellCheckerManager/src/edu/ncsu/csc316/spell_checker/manager/`, written out in full in the table.

| member | source | states |
|---|---|---|
| Hashing.Wrap | SpellCheckerManager/src/edu/ncsu/csc316/spell_checker/manager/SpellCheckerManager.java:52-54 | Java `int` overflow: the result is a 32-bit signed value that differs from the exact value by a multiple of 2^32, and an in-range value is unchanged |
| Hashing.WrapCongruent | SpellCheckerManager/src/edu/ncsu/csc316/spell_checker/manager/SpellCheckerManager.java:54 | integers that are congruent modulo 2^32 wrap to the same `int` |
| Hashing.WrapAddLeft | SpellCheckerManager/src/edu/ncsu/csc316/spell_checker/manager/SpellCheckerManager.java:54 | wrapping an operand of a sum first does not change the wrapped sum, so the three wrapping operators of one step compose |
| Hashing.JavaStepIsStep | SpellCheckerManager/src/edu/ncsu/csc316/spell_checker/manager/SpellCheckerManager.java:54 | `((h << 3) + h) + c`, each operator wrapping on its own, equals the single wrapped step `9h + c` |
| Hashing.HashFrom | SpellCheckerManager/src/edu/ncsu/csc316/spell_checker/manager/SpellCheckerManager.java:53-54 | the fold stays in `int` range and leaves the running value unchanged on the empty string |
| Hashing.Hash | SpellCheckerManager/src/edu/ncsu/csc316/spell_checker/manager/SpellCheckerManager.java:51-56 | every hash is a 32-bit signed value |
| Hashing.HashFromAppend | SpellCheckerManager/src/edu/ncsu/csc316/spell_checker/manager/SpellCheckerManager.java:53-54 | hashing `s + t` continues from the hash of `s` |
| Hashing.HashSnoc | SpellCheckerManager/src/edu/ncsu/csc316/spell_checker/manager/SpellCheckerManager.java:53-54 | one more character applies one more step |
| Hashing.GenHash | SpellCheckerManager/src/edu/ncsu/csc316/spell_checker/manager/SpellCheckerManager.java:51-56 | the loop, one Java statement per character, returns the left fold from 29 |
| Hashing.HashExamples | SpellCheckerManager/src/edu/ncsu/csc316/spell_checker/manager/SpellCheckerManager.java:52 | `""` hashes to the seed 29, `"a"` to 358 and `"ab"` to 3320 |
| Hashing.HashWrapsAround | SpellCheckerManager/src/edu/ncsu/csc316/spell_checker/manager/SpellCheckerManager.java:54 | a ten-letter word already wraps to a negative hash |
| CaseFold.ToLower | SpellCheckerManager/src/edu/ncsu/csc316/spell_checker/manager/SpellCheckerManager.java:105-107 | an upper-case ASCII letter maps to its lower-case letter (code + 32), any other character is kept, and the result is never upper case |
| CaseFold.CompareAntisymmetric | SpellCheckerManager/src/edu/ncsu/csc316/spell_checker/manager/SpellCheckerManager.java:171 | `compareToIgnoreCase(a, b) == -compareToIgnoreCase(b, a)` |
| CaseFold.CompareReflexive | SpellCheckerManager/src/edu/ncsu/csc316/spell_checker/manager/SpellCheckerManager.java:171 | every word compares as 0 with itself |
| CaseFold.CompareTotal | SpellCheckerManager/src/edu/ncsu/csc316/spell_checker/manager/SpellCheckerManager.java:171 | any two words are ordered one way or the other |
| CaseFold.CompareTransitive | SpellCheckerManager/src/edu/ncsu/csc316/spell_checker/manager/SpellCheckerManager.java:171 | "sorts no later than" is transitive |
| CaseFold.FoldedEqualCompareZero | SpellCheckerManager/src/edu/ncsu/csc316/spell_checker/manager/SpellCheckerManager.java:171 | words equal up to letter case compare as 0 (`cat` and `Cat` tie) |
| Candidates.Position | SpellCheckerManager/src/edu/ncsu/csc316/spell_checker/manager/SpellCheckerManager.java:166-179 | the scan's stopping point: every entry before it sorts no later than `w`, and the entry at it compares greater |
| Candidates.InsertElements | SpellCheckerManager/src/edu/ncsu/csc316/spell_checker/manager/SpellCheckerManager.java:161-180 | after the insertion the list holds exactly the old entries and `w` |
| Candidates.InsertScanStep | SpellCheckerManager/src/edu/ncsu/csc316/spell_checker/manager/SpellCheckerManager.java:166-176 | an entry that is neither equal to `w` nor case-insensitively greater is passed over: the scan continues with the rest of the list |
| Candidates.InsertScanStop | SpellCheckerManager/src/edu/ncsu/csc316/spell_checker/manager/SpellCheckerManager.java:167-175 | where the scan stops: an exact match leaves the list unchanged, and an entry that compares greater gets `w` placed just before it |
| Candidates.InsertPresent | SpellCheckerManager/src/edu/ncsu/csc316/spell_checker/manager/SpellCheckerManager.java:167-170 | re-inserting an exact duplicate into a sorted list leaves it unchanged |
| Candidates.InsertAbsent | SpellCheckerManager/src/edu/ncsu/csc316/spell_checker/manager/SpellCheckerManager.java:171-179 | a new word goes in before the first entry that compares greater, or at the end |
| Candidates.ArrivalOrder | SpellCheckerManager/src/edu/ncsu/csc316/spell_checker/manager/SpellCheckerManager.java:166-179 | in a sorted list a new word lands after every entry it ties with case-insensitively (arrival order) |
| Candidates.InsertAbsentAt | SpellCheckerManager/src/edu/ncsu/csc316/spell_checker/manager/SpellCheckerManager.java:171-179 | after an absent word goes in at its position, earlier entries keep their index, the word sits at the position and later entries move up by one |
| Candidates.InsertKeepsSorted | SpellCheckerManager/src/edu/ncsu/csc316/spell_checker/manager/SpellCheckerManager.java:161-180 | the list stays case-insensitively non-decreasing |
| Candidates.InsertKeepsDistinct | SpellCheckerManager/src/edu/ncsu/csc316/spell_checker/manager/SpellCheckerManager.java:161-180 | the list never holds two exactly equal strings |
| Candidates.InsertKeepsValid | SpellCheckerManager/src/edu/ncsu/csc316/spell_checker/manager/SpellCheckerManager.java:161-180 | sorted and duplicate-free are preserved, and `w` is in the result |
| Candidates.InsertMultiset | SpellCheckerManager/src/edu/ncsu/csc316/spell_checker/manager/SpellCheckerManager.java:161-180 | on a sorted list the multiset of entries is unchanged when `w` is already present and gains exactly one `w` when it is absent |
| Candidates.ArrivalOrderExample | SpellCheckerManager/src/edu/ncsu/csc316/spell_checker/manager/SpellCheckerManager.java:171-179 | `cat` then `Cat` gives `[cat, Cat]`, the other order gives `[Cat, cat]`, and `Mango` goes between `apple` and `zebra` |
| Candidates.Render | SpellCheckerManager/src/edu/ncsu/csc316/spell_checker/manager/SpellCheckerManager.java:59-63 | the rendering is enclosed in `[` and `]` |
| Candidates.JoinSnoc | SpellCheckerManager/src/edu/ncsu/csc316/spell_checker/manager/SpellCheckerManager.java:59-63 | one more entry adds `, ` and the entry before the closing bracket |
| Candidates.RenderExamples | SpellCheckerManager/src/edu/ncsu/csc316/spell_checker/manager/SpellCheckerManager.java:59-63 | `[]`, `[apple]` and `[apple, zebra]` |
| Rules.DisableCounts | SpellCheckerManager/src/edu/ncsu/csc316/spell_checker/manager/SpellCheckerManager.java:108-157 | clearing a set flag lowers the number of set flags by one, and the number of set re-checking flags by one exactly when the rule re-checks |
| Rules.FewerFlags | SpellCheckerManager/src/edu/ncsu/csc316/spell_checker/manager/SpellCheckerManager.java:88-157 | neither the guard nor a rule ever sets a flag again, so a subset of the flags has no more flags and no more re-checking flags |
| Rules.AllSetCounts | SpellCheckerManager/src/edu/ncsu/csc316/spell_checker/manager/SpellCheckerManager.java:79-85 | a token starts with seven flags set, four of them for re-checking rules |
| Rules.Guard | SpellCheckerManager/src/edu/ncsu/csc316/spell_checker/manager/SpellCheckerManager.java:88-101 | after the general rule every rule still on can read the word's ending in bounds, and no flag is set again |
| Rules.GuardClearsShort | SpellCheckerManager/src/edu/ncsu/csc316/spell_checker/manager/SpellCheckerManager.java:89-101 | a rule survives the guard exactly when it was on and the word has at least its minimum length (gerund 4, possessive and adverb 3, plural, agentive and past 2) |
| Rules.EndsWithLetter | SpellCheckerManager/src/edu/ncsu/csc316/spell_checker/manager/SpellCheckerManager.java:116 | a one-letter ending is a test of the last character |
| Rules.SelectSound | SpellCheckerManager/src/edu/ncsu/csc316/spell_checker/manager/SpellCheckerManager.java:103-160 | the rule the else-if chain picks is on, its condition holds, and the word is long enough for its suffix |
| Rules.SelectIsFirst | SpellCheckerManager/src/edu/ncsu/csc316/spell_checker/manager/SpellCheckerManager.java:103-158 | priority: whenever a rule is on and applicable, some rule fires, and it comes no later in the chain |
| Rules.SelectNone | SpellCheckerManager/src/edu/ncsu/csc316/spell_checker/manager/SpellCheckerManager.java:159-160 | the chain reaches the misspelled branch exactly when no rule is both on and applicable |
| Rules.Rewrite | SpellCheckerManager/src/edu/ncsu/csc316/spell_checker/manager/SpellCheckerManager.java:103-152 | capitalisation lowers only the first letter; the gerund form ends in `e` and gives the word back with `ing`; every other rule strips exactly its suffix |
| Rules.Repair | SpellCheckerManager/src/edu/ncsu/csc316/spell_checker/manager/SpellCheckerManager.java:121-157 | after a missed re-check the gerund drops its added `e`; the others drop a trailing `e` only when more than one letter is left; the word never becomes empty |
| Rules.Next | SpellCheckerManager/src/edu/ncsu/csc316/spell_checker/manager/SpellCheckerManager.java:103-157 | the working word after a pass is non-empty and no longer than before |
| Rules.NextEffect | SpellCheckerManager/src/edu/ncsu/csc316/spell_checker/manager/SpellCheckerManager.java:103-157 | the working word after a pass, per rule: capitalisation lowers the first letter only; possessive, gerund and adverb remove exactly their ending; plural, agentive and past tense remove their letter and also the `e` before it exactly when the word has more than two letters and that letter is `e` |
| Rules.Run | SpellCheckerManager/src/edu/ncsu/csc316/spell_checker/manager/SpellCheckerManager.java:87-183 | the loop ends; it runs at most one more pass than there are set flags; its re-checks are bounded by the set re-checking flags and by its passes; a misspelled verdict means the word was not in the dictionary and at least one pass ran |
| Rules.ClassifyBounds | SpellCheckerManager/src/edu/ncsu/csc316/spell_checker/manager/SpellCheckerManager.java:79-87 | a token runs the body at most 8 times and adds 1 to 5 lookups |
| Rules.DictionaryWordIsCorrect | SpellCheckerManager/src/edu/ncsu/csc316/spell_checker/manager/SpellCheckerManager.java:87 | a dictionary word is correct at the first test, with no pass and one lookup |
| Rules.CapitalizedKnownWord | SpellCheckerManager/src/edu/ncsu/csc316/spell_checker/manager/SpellCheckerManager.java:103-109 | capitalisation outranks the suffix rules: an unknown capitalised word whose lower-cased form is known is correct after one pass |
| Rules.NoRuleIsMisspelled | SpellCheckerManager/src/edu/ncsu/csc316/spell_checker/manager/SpellCheckerManager.java:159-182 | a word no rule applies to is misspelled after one pass, although no rule has fired and flags may still be set |
| Rules.DogsIsCorrect | SpellCheckerManager/src/edu/ncsu/csc316/spell_checker/manager/SpellCheckerManager.java:103-120 | `Dogs` against {run, dog, happy}: capitalised, then the plural re-check finds `dog`: correct, two lookups |
| Rules.HappilyIsMisspelled | SpellCheckerManager/src/edu/ncsu/csc316/spell_checker/manager/SpellCheckerManager.java:103-148 | `Happily` becomes `happily`, then `happi`: misspelled after three passes |
| Rules.RunningIsMisspelled | SpellCheckerManager/src/edu/ncsu/csc316/spell_checker/manager/SpellCheckerManager.java:136-143 | `running` re-checks `runne`, is left as `runn`, and is misspelled |
| Rules.RunFires | SpellCheckerManager/src/edu/ncsu/csc316/spell_checker/manager/SpellCheckerManager.java:103-158 | a pass in which a rule fires and its re-check (if any) misses hands the outcome to the next pass, one pass and possibly one re-check later |
| Rules.RunRecheckHits | SpellCheckerManager/src/edu/ncsu/csc316/spell_checker/manager/SpellCheckerManager.java:119-120 | a re-check hit ends the loop: correct, one re-check, one pass |
| Rules.RunNoRule | SpellCheckerManager/src/edu/ncsu/csc316/spell_checker/manager/SpellCheckerManager.java:159-182 | no applicable rule ends the loop: misspelled, one pass |
| Rules.LowerDogsIsCorrect | SpellCheckerManager/src/edu/ncsu/csc316/spell_checker/manager/SpellCheckerManager.java:115-120 | `dogs` against {run, dog, happy}: the plural re-check finds `dog` in one pass |
| Rules.LowerHappilyIsMisspelled | SpellCheckerManager/src/edu/ncsu/csc316/spell_checker/manager/SpellCheckerManager.java:144-160 | `happily` loses `ly`; nothing reduces `happi`: misspelled after two passes |
| Rules.RunnIsStuck | SpellCheckerManager/src/edu/ncsu/csc316/spell_checker/manager/SpellCheckerManager.java:159-182 | `runn` with the gerund flag spent: no rule applies, misspelled after one pass |
| Rules.KaIsStuck | SpellCheckerManager/src/edu/ncsu/csc316/spell_checker/manager/SpellCheckerManager.java:159-182 | `ka` with no flag left: misspelled after one pass |
| Rules.PastTenseFiresLast | SpellCheckerManager/src/edu/ncsu/csc316/spell_checker/manager/SpellCheckerManager.java:150-160 | `kad`, with only the past-tense flag left, re-checks `ka` and is then misspelled after two passes |
| Rules.AdverbFires | SpellCheckerManager/src/edu/ncsu/csc316/spell_checker/manager/SpellCheckerManager.java:145-182 | the run from `kadly` with adverb and past tense on (`kadly`, `kad`, `ka`) ends misspelled after 3 passes and 1 re-check |
| Rules.GerundFires | SpellCheckerManager/src/edu/ncsu/csc316/spell_checker/manager/SpellCheckerManager.java:136-182 | the run from `kadlying` with gerund, adverb and past tense on ends misspelled after 4 passes and 2 re-checks |
| Rules.AgentiveFires | SpellCheckerManager/src/edu/ncsu/csc316/spell_checker/manager/SpellCheckerManager.java:126-182 | the run from `kadlyingr` with agentive, gerund, adverb and past tense on ends misspelled after 5 passes and 3 re-checks |
| Rules.PluralFires | SpellCheckerManager/src/edu/ncsu/csc316/spell_checker/manager/SpellCheckerManager.java:116-182 | the run from `kadlyingrs` with plural through past tense on ends misspelled after 6 passes and 4 re-checks |
| Rules.PossessiveFires | SpellCheckerManager/src/edu/ncsu/csc316/spell_checker/manager/SpellCheckerManager.java:111-182 | the run from `kadlyingrs's` with every suffix rule on ends misspelled after 7 passes and 4 re-checks |
| Rules.AllRulesFire | SpellCheckerManager/src/edu/ncsu/csc316/spell_checker/manager/SpellCheckerManager.java:79-183 | the bounds are reached: on `Kadlyingrs's` all seven rules fire in order, four re-check, and the body runs eight times |
| Dictionary.HashTable.constructor | SpellCheckerManager/src/edu/ncsu/csc316/spell_checker/manager/SpellCheckerManager.java:26 | a new table holds no words and has counted no probes |
| Dictionary.HashTable.Add | SpellCheckerManager/src/edu/ncsu/csc316/spell_checker/manager/SpellCheckerManager.java:37 | the word is held from now on; probes are not counted |
| Dictionary.HashTable.Contains | SpellCheckerManager/src/edu/ncsu/csc316/spell_checker/manager/SpellCheckerManager.java:87 | the answer is membership, and the probe counter grows |
| Dictionary.HashTable.ResetProbes | SpellCheckerManager/src/edu/ncsu/csc316/spell_checker/manager/SpellCheckerManager.java:70 | the probe counter is zero |
| Manager.CheckAllKeepsValid | SpellCheckerManager/src/edu/ncsu/csc316/spell_checker/manager/SpellCheckerManager.java:75-183 | over a whole check the list stays sorted and duplicate-free |
| Manager.CheckAllLookups | SpellCheckerManager/src/edu/ncsu/csc316/spell_checker/manager/SpellCheckerManager.java:72-152 | the lookup total is between the token count and five times it |
| Manager.CheckAllRecords | SpellCheckerManager/src/edu/ncsu/csc316/spell_checker/manager/SpellCheckerManager.java:159-181 | after a check the list holds the earlier entries and exactly the tokens found misspelled, in their original spelling |
| Manager.CheckAllStep | SpellCheckerManager/src/edu/ncsu/csc316/spell_checker/manager/SpellCheckerManager.java:75-87 | one token of the check phase: its verdict decides whether it is inserted, and it adds one lookup plus its re-checks |
| Manager.DictionaryWordNeverRecorded | SpellCheckerManager/src/edu/ncsu/csc316/spell_checker/manager/SpellCheckerManager.java:87 | a dictionary word is never added to the list |
| Manager.GeneralRule | SpellCheckerManager/src/edu/ncsu/csc316/spell_checker/manager/SpellCheckerManager.java:88-101 | the statements of the general rule compute the guard |
| Manager.SpellCheckerManager.constructor | SpellCheckerManager/src/edu/ncsu/csc316/spell_checker/manager/SpellCheckerManager.java:26-27 | a fresh empty dictionary and an empty list |
| Manager.SpellCheckerManager.InsertSorted | SpellCheckerManager/src/edu/ncsu/csc316/spell_checker/manager/SpellCheckerManager.java:161-180 | the scan over the list leaves it equal to `Insert` of the old list and the token |
| Manager.SpellCheckerManager.DropAndRecheck | SpellCheckerManager/src/edu/ncsu/csc316/spell_checker/manager/SpellCheckerManager.java:116-157 | the plural, agentive and past-tense branches report a re-check hit exactly when the stripped word is known, and otherwise yield the next working word |
| Manager.SpellCheckerManager.GerundRecheck | SpellCheckerManager/src/edu/ncsu/csc316/spell_checker/manager/SpellCheckerManager.java:136-143 | the gerund branch reports a hit exactly when the word with `ing` replaced by `e` is known, and otherwise yields the word without `ing` |
| Manager.SpellCheckerManager.Fire | SpellCheckerManager/src/edu/ncsu/csc316/spell_checker/manager/SpellCheckerManager.java:103-158 | the branch of a rule reports a hit only for a re-checking rule whose rewritten word is known; otherwise it yields the next working word |
| Manager.SpellCheckerManager.CheckToken | SpellCheckerManager/src/edu/ncsu/csc316/spell_checker/manager/SpellCheckerManager.java:78-183 | the retry loop's verdict and lookup count are those of `Run` from all flags set; the dictionary's words are unchanged, probes grow, and a misspelled token is inserted as written |
| Manager.SpellCheckerManager.CheckTokens | SpellCheckerManager/src/edu/ncsu/csc316/spell_checker/manager/SpellCheckerManager.java:75-184 | the token loop leaves the list equal to the fold over the tokens and returns the fold's lookup total; the list stays sorted and duplicate-free, the dictionary's words are unchanged, and each token adds at least one probe |
| Manager.SpellCheckerManager.SpellCheck | SpellCheckerManager/src/edu/ncsu/csc316/spell_checker/manager/SpellCheckerManager.java:67-196 | an empty input fails with probes reset and the list untouched; otherwise the list becomes the fold over the tokens (starting from the list left by earlier calls), the token count is the number of tokens, the lookups are the fold's total, and the text is `ArrayBasedList` plus the rendering |
| Manager.Create | SpellCheckerManager/src/edu/ncsu/csc316/spell_checker/manager/SpellCheckerManager.java:25-44 | an empty dictionary input fails; otherwise the table holds exactly the input's words, and the list is empty |

## Left out

- Reading files: `FileInputStream`, `Scanner` tokenisation and `FileNotFoundException` are not modelled. Token sequences are parameters, and the missing-file error is not modelled.
- Manager.SpellCheckerManager.CheckToken: requires a non-empty token, as whitespace tokenisation never yields an empty one. On an empty token the source would fail at `charAt(0)`.
- Console output (SpellCheckerManager.java:31, 185-194) is not modelled. The figures it prints are returned in `Report`; the two averages use floating-point division and are left out.
- `HashTable` is not part of this model. Its probing, resizing and exact probe counting are not modelled. Dictionary.HashTable.Contains promises only that the probe counter grows, not by how much.
- Dictionary.HashTable.Size: the size of the set of words, so duplicates in the dictionary input are counted once.
- `DoubleList` and `Node` are not part of this model. The list is a sequence, and its rendering follows the format the doc comment at SpellCheckerManager.java:59-63 gives.
- `Character.isUpperCase`, `toLowerCase` and `compareToIgnoreCase` are modelled for ASCII letters only. Other characters are never upper case and fold to themselves.
- CaseFold.ToLower: lines 105 and 107 lower-case with the JVM's default locale. The model assumes a locale that maps A-Z to a-z. It does not model Turkish or Azeri locales, where `I` becomes dotless `ı`, so there `Rules.CapitalizedKnownWord` and the capitalisation branch of `Rules.Rewrite` can differ from the source.
- Java `char` is a UTF-16 code unit, while a Dafny `char` is a Unicode scalar value. Characters outside the Basic Multilingual Plane are not modelled as surrogate pairs.
- Manager.Create: the constructor's `IllegalArgumentException` is modelled as a factory method that returns an error instead of an object.
- Manager.SpellCheckerManager.Fire and Manager.SpellCheckerManager.DropAndRecheck: the else-if chain is modelled as the selection function `Rules.Select` followed by the branch of the chosen rule. The three branches that strip one letter share one method. Their statements are those of the source.
- The counters `wordcount` and `lookup` (SpellCheckerManager.java:71-72) are Java `int`s that would wrap past 2^31 - 1. In the model they are unbounded (`Report.wordCount`, `Report.lookups`, `Tally.lookups` and the result of `CheckTokens`), so their wrap-around is not modelled.
