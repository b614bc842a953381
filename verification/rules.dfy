/** The per-token retry loop of `spellCheck`: seven one-shot rules tried in a
    fixed priority order, a length guard that switches off the rules a short
    word cannot take, and a dictionary re-check inside four of the rules. */
module Rules {
  import opened CaseFold

  datatype Option<T> = None | Some(value: T)

  /** The seven rules, in the order the else-if chain tries them. */
  datatype Rule = Capitalization | Possessive | Plural | Agentive | Gerund | Adverb | PastTense

  function Rank(r: Rule): nat {
    match r
    case Capitalization => 1
    case Possessive => 2
    case Plural => 3
    case Agentive => 4
    case Gerund => 5
    case Adverb => 6
    case PastTense => 7
  }

  /** The ending a rule looks for (capitalisation looks at the first letter). */
  function Suffix(r: Rule): string {
    match r
    case Capitalization => ""
    case Possessive => "'s"
    case Plural => "s"
    case Agentive => "r"
    case Gerund => "ing"
    case Adverb => "ly"
    case PastTense => "d"
  }

  /** The shortest working word on which the length guard leaves a rule on. */
  function MinLength(r: Rule): nat {
    match r
    case Capitalization => 1
    case Possessive => 3
    case Plural => 2
    case Agentive => 2
    case Gerund => 4
    case Adverb => 3
    case PastTense => 2
  }

  /** The four rules that query the dictionary again as soon as they fire. */
  const Rechecking: set<Rule> := {Plural, Agentive, Gerund, PastTense}

  predicate Rechecks(r: Rule) {
    r in Rechecking
  }

  /** The flags `r1` .. `r7` of one token, as the set of rules still on. */
  type Flags = set<Rule>

  /** Every flag is set before the loop starts. */
  const AllSet: Flags := {Capitalization, Possessive, Plural, Agentive, Gerund, Adverb, PastTense}

  function Bit(b: bool): nat { if b then 1 else 0 }

  /** How many of the re-checking rules are still on. */
  function RecheckCount(f: Flags): nat {
    |f * Rechecking|
  }

  /** All seven flags are set at the start, four of them re-checking. */
  lemma AllSetCounts()
    ensures |AllSet| == 7 && RecheckCount(AllSet) == 4
  {
    assert AllSet * Rechecking == Rechecking;
  }

  /** Clearing one flag: `rN = false`. */
  function Disable(f: Flags, r: Rule): Flags {
    f - {r}
  }

  /** Clearing a set flag lowers the number of set flags by one, and the
      number of set re-checking flags by one when the rule re-checks. */
  lemma DisableCounts(f: Flags, r: Rule)
    requires r in f
    ensures |Disable(f, r)| + 1 == |f|
    ensures RecheckCount(Disable(f, r)) + Bit(Rechecks(r)) == RecheckCount(f)
  {
    assert Disable(f, r) * Rechecking == f * Rechecking - {r};
  }

  /** Fewer flags set means no more set flags of either kind. */
  lemma FewerFlags(g: Flags, f: Flags)
    requires g <= f
    ensures |g| <= |f| && RecheckCount(g) <= RecheckCount(f)
  {
    assert f == g + (f - g);
    assert f * Rechecking == g * Rechecking + (f - g) * Rechecking;
  }

  /** Every rule still on can inspect the last letters of a word of length
      `n` without leaving it. */
  predicate Fits(n: nat, f: Flags) {
    (Gerund in f ==> n >= 4) && (Possessive in f || Adverb in f ==> n >= 3)
      && (Plural in f || Agentive in f || PastTense in f ==> n >= 2)
  }

  /** The general rule at the head of each pass. */
  function Guard(n: nat, f: Flags): (g: Flags)
    ensures Fits(n, g) && g <= f
  {
    var f1 := if n < 4 then f - {Gerund} else f;
    var f2 := if n < 3 then f1 - {Possessive, Adverb} else f1;
    if n < 2 then f2 - {Plural, Agentive, PastTense} else f2
  }

  /** The guard clears exactly the rules whose minimum length exceeds `n`. */
  lemma GuardClearsShort(n: nat, f: Flags, r: Rule)
    requires n >= 1
    ensures r in Guard(n, f) <==> r in f && MinLength(r) <= n
  {
  }

  predicate EndsWith(w: string, suffix: string) {
    |suffix| <= |w| && w[|w| - |suffix|..] == suffix
  }

  /** The condition a rule tests, apart from its flag. */
  predicate Matches(r: Rule, w: string) {
    match r
    case Capitalization => |w| >= 1 && IsUpper(w[0])
    case _ => EndsWith(w, Suffix(r))
  }

  /** A one-letter ending is a test of the last character. */
  lemma EndsWithLetter(w: string, c: char)
    requires |w| >= 1
    ensures EndsWith(w, [c]) <==> w[|w| - 1] == c
  {
    if w[|w| - 1] == c {
      assert w[|w| - 1..] == [c];
    }
  }

  /** The else-if chain: the rule that fires on this pass, if any. */
  function Select(w: string, f: Flags): Option<Rule>
    requires |w| >= 1 && Fits(|w|, f)
  {
    var n := |w|;
    if Capitalization in f && IsUpper(w[0]) then Some(Capitalization)
    else if Possessive in f && w[n - 2..] == "'s" then Some(Possessive)
    else if Plural in f && w[n - 1] == 's' then Some(Plural)
    else if Agentive in f && w[n - 1] == 'r' then Some(Agentive)
    else if Gerund in f && w[n - 3..] == "ing" then Some(Gerund)
    else if Adverb in f && w[n - 2..] == "ly" then Some(Adverb)
    else if PastTense in f && w[n - 1] == 'd' then Some(PastTense)
    else None
  }

  /** The rule the chain picks is on, its condition holds, and the word is
      long enough for it. */
  lemma SelectSound(w: string, f: Flags)
    requires |w| >= 1 && Fits(|w|, f)
    ensures Select(w, f).Some? ==>
              Select(w, f).value in f && Matches(Select(w, f).value, w) &&
              |w| >= MinLength(Select(w, f).value)
  {
    EndsWithLetter(w, 's');
    EndsWithLetter(w, 'r');
    EndsWithLetter(w, 'd');
  }

  /** Priority for the capitalisation and possessive rules. */
  lemma SelectIsFirstEarly(w: string, f: Flags, q: Rule)
    requires |w| >= 1 && Fits(|w|, f)
    requires q in f && Matches(q, w)
    requires q == Capitalization || q == Possessive
    ensures Select(w, f).Some? && Rank(Select(w, f).value) <= Rank(q)
  {
  }

  /** Priority for the gerund and adverb rules. */
  lemma SelectIsFirstLate(w: string, f: Flags, q: Rule)
    requires |w| >= 1 && Fits(|w|, f)
    requires q in f && Matches(q, w)
    requires q == Gerund || q == Adverb
    ensures Select(w, f).Some? && Rank(Select(w, f).value) <= Rank(q)
  {
    if q == Gerund {
      assert w[|w| - 3..] == "ing";
    } else {
      assert w[|w| - 2..] == "ly";
    }
  }

  /** Priority for the rules that test the last letter only. */
  lemma SelectIsFirstLetter(w: string, f: Flags, q: Rule)
    requires |w| >= 1 && Fits(|w|, f)
    requires q in f && Matches(q, w)
    requires q == Plural || q == Agentive || q == PastTense
    ensures Select(w, f).Some? && Rank(Select(w, f).value) <= Rank(q)
  {
    if q == Plural {
      EndsWithLetter(w, 's');
    } else if q == Agentive {
      EndsWithLetter(w, 'r');
    } else {
      EndsWithLetter(w, 'd');
    }
  }

  /** Priority: when some rule is on and applies, a rule fires, and it
      comes no later in the chain than that rule. */
  lemma SelectIsFirst(w: string, f: Flags, q: Rule)
    requires |w| >= 1 && Fits(|w|, f)
    requires q in f && Matches(q, w)
    ensures Select(w, f).Some? && Rank(Select(w, f).value) <= Rank(q)
  {
    if q == Plural || q == Agentive || q == PastTense {
      SelectIsFirstLetter(w, f, q);
    } else if q == Capitalization || q == Possessive {
      SelectIsFirstEarly(w, f, q);
    } else {
      SelectIsFirstLate(w, f, q);
    }
  }

  /** No rule fires exactly when no rule is both on and applicable. */
  lemma SelectNone(w: string, f: Flags)
    requires |w| >= 1 && Fits(|w|, f)
    ensures Select(w, f).None? <==> forall q :: !(q in f && Matches(q, w))
  {
    if Select(w, f).None? {
      forall q ensures !(q in f && Matches(q, w)) {
        if q in f && Matches(q, w) {
          SelectIsFirst(w, f, q);
        }
      }
    }
  }

  /** What a rule first does to the working word; for the four re-checking
      rules this is the form looked up at once. */
  function Rewrite(r: Rule, w: string): (v: string)
    requires |w| >= MinLength(r) && Matches(r, w)
    ensures 1 <= |v| <= |w|
    ensures r == Capitalization ==> |v| == |w| && !IsUpper(v[0]) && v[0] == ToLower(w[0]) && v[1..] == w[1..]
    ensures r == Gerund ==> v[|v| - 1] == 'e' && v[..|v| - 1] + Suffix(r) == w
    ensures r != Capitalization && r != Gerund ==> v + Suffix(r) == w
  {
    var n := |w|;
    match r
    case Capitalization => if n > 1 then [ToLower(w[0])] + w[1..] else [ToLower(w[0])]
    case Possessive => w[..n - 2]
    case Plural => w[..n - 1]
    case Agentive => w[..n - 1]
    case Gerund => w[..n - 3] + "e"
    case Adverb => w[..n - 2]
    case PastTense => w[..n - 1]
  }

  /** After a re-check misses: the gerund rule drops the `e` it added, the
      other three drop a trailing `e` when more than one letter is left. */
  function Repair(r: Rule, v: string): (u: string)
    requires Rechecks(r) && |v| >= 1
    requires r == Gerund ==> |v| >= 2 && v[|v| - 1] == 'e'
    ensures 1 <= |u| <= |v|
    ensures r == Gerund ==> u + "e" == v
    ensures r != Gerund && |v| > 1 && v[|v| - 1] == 'e' ==> u + "e" == v
    ensures r != Gerund && !(|v| > 1 && v[|v| - 1] == 'e') ==> u == v
  {
    if r == Gerund then v[..|v| - 1]
    else if |v| > 1 && v[|v| - 1] == 'e' then v[..|v| - 1]
    else v
  }

  /** The working word after a pass in which `r` fired and, for a re-checking
      rule, its re-check missed. */
  function Next(r: Rule, w: string): (u: string)
    requires |w| >= MinLength(r) && Matches(r, w)
    ensures 1 <= |u| <= |w|
  {
    var v := Rewrite(r, w);
    if Rechecks(r) then Repair(r, v) else v
  }

  /** What a pass does to the working word, rule by rule: capitalisation
      lowers the first letter only; the possessive, gerund and adverb rules
      remove exactly their ending; the plural, agentive and past-tense rules
      remove their letter, and also an `e` before it when more than one
      letter would be left. */
  lemma NextEffect(r: Rule, w: string)
    requires |w| >= MinLength(r) && Matches(r, w)
    ensures var u := Next(r, w);
            match r
            case Capitalization => |u| == |w| && u[0] == ToLower(w[0]) && u[1..] == w[1..]
            case Possessive => u + "'s" == w
            case Gerund => u + "ing" == w
            case Adverb => u + "ly" == w
            case _ => (|w| > 2 && w[|w| - 2] == 'e' ==> u + "e" + Suffix(r) == w) &&
                      (!(|w| > 2 && w[|w| - 2] == 'e') ==> u + Suffix(r) == w)
  {
    var v := Rewrite(r, w);
    match r
    case Capitalization =>
    case Possessive =>
    case Gerund =>
      assert Next(r, w) == v[..|v| - 1];
    case Adverb =>
    case Plural =>
    case Agentive =>
    case PastTense =>
  }

  /** The outcome of the loop for one token: whether it was found, how many
      re-checks counted as lookups, and how many times the loop body ran. */
  datatype Verdict = Verdict(correct: bool, rechecks: nat, passes: nat)

  /** The loop from the working word `w` with flags `f`: look `w` up; on a
      miss, apply the guard and the first applicable rule; a re-check hit or
      no applicable rule ends the loop. */
  function Run(dict: set<string>, w: string, f: Flags): (v: Verdict)
    requires |w| >= 1
    ensures v.passes <= |f| + 1
    ensures v.rechecks <= RecheckCount(f)
    ensures v.rechecks <= v.passes
    ensures !v.correct ==> w !in dict && v.passes >= 1
    decreases |f|
  {
    if w in dict then Verdict(true, 0, 0)
    else
      var g := Guard(|w|, f);
      SelectSound(w, g);
      match Select(w, g)
      case None => Verdict(false, 0, 1)
      case Some(r) =>
        if Rechecks(r) && Rewrite(r, w) in dict then Verdict(true, 1, 1)
        else
          FewerFlags(g, f);
          DisableCounts(g, r);
          var v := Run(dict, Next(r, w), Disable(g, r));
          Verdict(v.correct, v.rechecks + Bit(Rechecks(r)), v.passes + 1)
  }

  /** The loop for a whole token, all flags set. */
  function Classify(dict: set<string>, w: string): (v: Verdict)
    requires |w| >= 1
  {
    Run(dict, w, AllSet)
  }

  /** The lookups one token adds: one for the loop's first test plus one per
      re-check; the loop's later tests are not counted. */
  function Lookups(dict: set<string>, w: string): nat
    requires |w| >= 1
  {
    1 + Classify(dict, w).rechecks
  }

  /** The body runs at most eight times, and a token adds one to five lookups. */
  lemma ClassifyBounds(dict: set<string>, w: string)
    requires |w| >= 1
    ensures Classify(dict, w).passes <= 8
    ensures 1 <= Lookups(dict, w) <= 5
  {
    AllSetCounts();
  }

  /** A dictionary word is correct at the first test, with one lookup. */
  lemma DictionaryWordIsCorrect(dict: set<string>, w: string)
    requires |w| >= 1 && w in dict
    ensures Classify(dict, w) == Verdict(true, 0, 0)
  {
  }

  /** Capitalisation outranks every suffix rule: an unknown capitalised word
      whose lower-cased form is known is correct after one pass, with no
      re-check. */
  lemma CapitalizedKnownWord(dict: set<string>, w: string)
    requires |w| >= 1 && w !in dict && IsUpper(w[0])
    requires [ToLower(w[0])] + w[1..] in dict
    ensures Classify(dict, w) == Verdict(true, 0, 1)
  {
    var u := Next(Capitalization, w);
    assert u == [ToLower(w[0])] + w[1..];
  }

  /** A word that no rule applies to is misspelled after one pass, although
      every flag is still set. */
  lemma NoRuleIsMisspelled(dict: set<string>, w: string)
    requires |w| >= 1 && w !in dict
    requires forall q :: !Matches(q, w)
    ensures Classify(dict, w) == Verdict(false, 0, 1)
  {
    var g := Guard(|w|, AllSet);
    SelectNone(w, g);
  }

  /** One pass in which rule `r` fires and, if it re-checks, misses: the
      outcome is that of the rest of the loop, one pass and possibly one
      re-check later. */
  lemma RunFires(dict: set<string>, w: string, f: Flags, r: Rule)
    requires |w| >= 1 && w !in dict
    requires Select(w, Guard(|w|, f)) == Some(r) && |w| >= MinLength(r) && Matches(r, w)
    requires Rechecks(r) ==> Rewrite(r, w) !in dict
    ensures var v := Run(dict, Next(r, w), Disable(Guard(|w|, f), r));
            Run(dict, w, f) == Verdict(v.correct, v.rechecks + Bit(Rechecks(r)), v.passes + 1)
  {
  }

  /** A pass whose re-check finds the rewritten word ends the loop: correct. */
  lemma RunRecheckHits(dict: set<string>, w: string, f: Flags, r: Rule)
    requires |w| >= 1 && w !in dict
    requires Select(w, Guard(|w|, f)) == Some(r) && |w| >= MinLength(r) && Matches(r, w)
    requires Rechecks(r) && Rewrite(r, w) in dict
    ensures Run(dict, w, f) == Verdict(true, 1, 1)
  {
  }

  /** A pass in which no rule applies ends the loop: misspelled. */
  lemma RunNoRule(dict: set<string>, w: string, f: Flags)
    requires |w| >= 1 && w !in dict
    requires Select(w, Guard(|w|, f)) == None
    ensures Run(dict, w, f) == Verdict(false, 0, 1)
  {
  }

  /** `dogs`, capitalisation already spent: the plural re-check finds `dog`. */
  lemma LowerDogsIsCorrect(dict: set<string>)
    requires dict == {"run", "dog", "happy"}
    ensures Run(dict, "dogs", {Possessive, Plural, Agentive, Gerund, Adverb, PastTense}) == Verdict(true, 1, 1)
  {
    var f := {Possessive, Plural, Agentive, Gerund, Adverb, PastTense};
    assert "dogs" !in dict && "dog" in dict;
    assert Select("dogs", Guard(4, f)) == Some(Plural) by {}
    SelectSound("dogs", Guard(4, f));
    assert Rewrite(Plural, "dogs") == "dog" by {}
    RunRecheckHits(dict, "dogs", f, Plural);
  }

  /** `Dogs` against {run, dog, happy}: capitalisation, then the plural
      re-check finds `dog`: two lookups. */
  lemma DogsIsCorrect(dict: set<string>)
    requires dict == {"run", "dog", "happy"}
    ensures Classify(dict, "Dogs") == Verdict(true, 1, 2)
    ensures Lookups(dict, "Dogs") == 2
  {
    var f := {Possessive, Plural, Agentive, Gerund, Adverb, PastTense};
    assert "Dogs" !in dict;
    assert Select("Dogs", Guard(4, AllSet)) == Some(Capitalization) by {}
    SelectSound("Dogs", Guard(4, AllSet));
    assert Disable(Guard(4, AllSet), Capitalization) == f by {}
    assert Next(Capitalization, "Dogs") == "dogs" by {}
    LowerDogsIsCorrect(dict);
    RunFires(dict, "Dogs", AllSet, Capitalization);
  }

  /** `happily`, once lower-cased: `ly` is stripped to `happi`, which no
      rule reduces further. */
  lemma LowerHappilyIsMisspelled(dict: set<string>)
    requires dict == {"run", "dog", "happy"}
    ensures Run(dict, "happily", {Possessive, Plural, Agentive, Gerund, Adverb, PastTense}) == Verdict(false, 0, 2)
  {
    var f := {Possessive, Plural, Agentive, Gerund, Adverb, PastTense};
    var f' := {Possessive, Plural, Agentive, Gerund, PastTense};
    assert "happily" !in dict && "happi" !in dict;
    assert Select("happi", Guard(5, f')) == None by {}
    RunNoRule(dict, "happi", f');
    assert Select("happily", Guard(7, f)) == Some(Adverb) by {}
    SelectSound("happily", Guard(7, f));
    assert Disable(Guard(7, f), Adverb) == f' by {}
    assert Next(Adverb, "happily") == "happi" by {}
    RunFires(dict, "happily", f, Adverb);
  }

  /** `Happily`: lower-cased, then `ly` stripped to `happi`, which no rule
      reduces further: misspelled after three passes. */
  lemma HappilyIsMisspelled(dict: set<string>)
    requires dict == {"run", "dog", "happy"}
    ensures Classify(dict, "Happily") == Verdict(false, 0, 3)
  {
    var f := {Possessive, Plural, Agentive, Gerund, Adverb, PastTense};
    assert "Happily" !in dict;
    assert Select("Happily", Guard(7, AllSet)) == Some(Capitalization) by {}
    SelectSound("Happily", Guard(7, AllSet));
    assert Disable(Guard(7, AllSet), Capitalization) == f by {}
    assert Next(Capitalization, "Happily") == "happily" by {}
    LowerHappilyIsMisspelled(dict);
    RunFires(dict, "Happily", AllSet, Capitalization);
  }

  /** `runn`: no rule reduces it further. */
  lemma RunnIsStuck(dict: set<string>)
    requires dict == {"run", "dog", "happy"}
    ensures Run(dict, "runn", {Capitalization, Possessive, Plural, Agentive, Adverb, PastTense}) == Verdict(false, 0, 1)
  {
    var f := {Capitalization, Possessive, Plural, Agentive, Adverb, PastTense};
    assert "runn" !in dict;
    assert Select("runn", Guard(4, f)) == None by {}
    RunNoRule(dict, "runn", f);
  }

  /** `running`: the gerund rule tries `runne`, leaves `runn`, and nothing
      undoes the doubled consonant: misspelled, with one re-check. */
  lemma RunningIsMisspelled(dict: set<string>)
    requires dict == {"run", "dog", "happy"}
    ensures Classify(dict, "running") == Verdict(false, 1, 2)
  {
    var f := {Capitalization, Possessive, Plural, Agentive, Adverb, PastTense};
    assert "running" !in dict && "runne" !in dict;
    assert Select("running", Guard(7, AllSet)) == Some(Gerund) by {}
    SelectSound("running", Guard(7, AllSet));
    assert Disable(Guard(7, AllSet), Gerund) == f by {}
    assert Rewrite(Gerund, "running") == "runne" by {}
    assert Next(Gerund, "running") == "runn" by {}
    RunnIsStuck(dict);
    RunFires(dict, "running", AllSet, Gerund);
  }

  /** The last pass of `AllRulesFire`: no rule applies to `ka`. */
  lemma KaIsStuck(dict: set<string>)
    requires dict == {}
    ensures Run(dict, "ka", {}) == Verdict(false, 0, 1)
  {
    assert Select("ka", Guard(2, {})) == None by {}
    RunNoRule(dict, "ka", {});
  }

  /** The past-tense rule on `kad`. */
  lemma PastTenseFiresLast(dict: set<string>)
    requires dict == {}
    ensures Run(dict, "kad", {PastTense}) == Verdict(false, 1, 2)
  {
    assert Select("kad", Guard(3, {PastTense})) == Some(PastTense) by {}
    SelectSound("kad", Guard(3, {PastTense}));
    assert Disable(Guard(3, {PastTense}), PastTense) == {} by {}
    assert Rewrite(PastTense, "kad") == "ka" by {}
    assert Next(PastTense, "kad") == "ka" by {}
    KaIsStuck(dict);
    RunFires(dict, "kad", {PastTense}, PastTense);
  }

  /** The adverb rule on `kadly`. */
  lemma AdverbFires(dict: set<string>)
    requires dict == {}
    ensures Run(dict, "kadly", {Adverb, PastTense}) == Verdict(false, 1, 3)
  {
    var f := {Adverb, PastTense};
    assert Select("kadly", Guard(5, f)) == Some(Adverb) by {}
    SelectSound("kadly", Guard(5, f));
    assert Disable(Guard(5, f), Adverb) == {PastTense} by {}
    assert Next(Adverb, "kadly") == "kad" by {}
    PastTenseFiresLast(dict);
    RunFires(dict, "kadly", f, Adverb);
  }

  /** The gerund rule on `kadlying`: `kadlye` misses, `kadly` is left. */
  lemma GerundFires(dict: set<string>)
    requires dict == {}
    ensures Run(dict, "kadlying", {Gerund, Adverb, PastTense}) == Verdict(false, 2, 4)
  {
    var f := {Gerund, Adverb, PastTense};
    assert Select("kadlying", Guard(8, f)) == Some(Gerund) by {}
    SelectSound("kadlying", Guard(8, f));
    assert Disable(Guard(8, f), Gerund) == {Adverb, PastTense} by {}
    assert Next(Gerund, "kadlying") == "kadly" by {}
    AdverbFires(dict);
    RunFires(dict, "kadlying", f, Gerund);
  }

  /** The agentive rule on `kadlyingr`. */
  lemma AgentiveFires(dict: set<string>)
    requires dict == {}
    ensures Run(dict, "kadlyingr", {Agentive, Gerund, Adverb, PastTense}) == Verdict(false, 3, 5)
  {
    var f := {Agentive, Gerund, Adverb, PastTense};
    assert Select("kadlyingr", Guard(9, f)) == Some(Agentive) by {}
    SelectSound("kadlyingr", Guard(9, f));
    assert Disable(Guard(9, f), Agentive) == {Gerund, Adverb, PastTense} by {}
    assert Next(Agentive, "kadlyingr") == "kadlying" by {}
    GerundFires(dict);
    RunFires(dict, "kadlyingr", f, Agentive);
  }

  /** The plural rule on `kadlyingrs`. */
  lemma PluralFires(dict: set<string>)
    requires dict == {}
    ensures Run(dict, "kadlyingrs", {Plural, Agentive, Gerund, Adverb, PastTense}) == Verdict(false, 4, 6)
  {
    var f := {Plural, Agentive, Gerund, Adverb, PastTense};
    assert Select("kadlyingrs", Guard(10, f)) == Some(Plural) by {}
    SelectSound("kadlyingrs", Guard(10, f));
    assert Disable(Guard(10, f), Plural) == {Agentive, Gerund, Adverb, PastTense} by {}
    assert Next(Plural, "kadlyingrs") == "kadlyingr" by {}
    AgentiveFires(dict);
    RunFires(dict, "kadlyingrs", f, Plural);
  }

  /** The possessive rule on `kadlyingrs's`. */
  lemma PossessiveFires(dict: set<string>)
    requires dict == {}
    ensures Run(dict, "kadlyingrs's", {Possessive, Plural, Agentive, Gerund, Adverb, PastTense}) == Verdict(false, 4, 7)
  {
    var f := {Possessive, Plural, Agentive, Gerund, Adverb, PastTense};
    assert Select("kadlyingrs's", Guard(12, f)) == Some(Possessive) by {}
    SelectSound("kadlyingrs's", Guard(12, f));
    assert Disable(Guard(12, f), Possessive) == {Plural, Agentive, Gerund, Adverb, PastTense} by {}
    assert Next(Possessive, "kadlyingrs's") == "kadlyingrs" by {}
    PluralFires(dict);
    RunFires(dict, "kadlyingrs's", f, Possessive);
  }

  /** The bounds are reached: all seven rules fire on `Kadlyingrs's`, four
      of them re-check, and the body runs eight times. */
  lemma AllRulesFire(dict: set<string>)
    requires dict == {}
    ensures Classify(dict, "Kadlyingrs's") == Verdict(false, 4, 8)
  {
    assert Select("Kadlyingrs's", Guard(12, AllSet)) == Some(Capitalization) by {}
    SelectSound("Kadlyingrs's", Guard(12, AllSet));
    assert Disable(Guard(12, AllSet), Capitalization) == {Possessive, Plural, Agentive, Gerund, Adverb, PastTense} by {}
    assert Next(Capitalization, "Kadlyingrs's") == "kadlyingrs's" by {}
    PossessiveFires(dict);
    RunFires(dict, "Kadlyingrs's", AllSet, Capitalization);
  }
}
