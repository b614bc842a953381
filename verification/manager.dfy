/** `SpellCheckerManager`: loads a dictionary, then checks a sequence of
    tokens, recording every token the rule loop cannot match in the sorted
    misspelling list and counting tokens and lookups. */
module Manager {
  import opened Hashing
  import opened CaseFold
  import opened Candidates
  import opened Rules
  import opened Dictionary

  /** The `IllegalArgumentException` thrown for an input without tokens. */
  datatype Error = EmptyInput

  datatype Result<T> = Ok(value: T) | Err(error: Error)

  /** One `spellCheck` call: the returned text, and the figures it prints. */
  datatype Report = Report(text: string, dictionarySize: nat, wordCount: nat,
                           misspelledCount: nat, probes: nat, lookups: nat)

  /** The misspelling list and the lookup count after a run of tokens. */
  datatype Tally = Tally(words: seq<string>, lookups: nat)

  /** Tokens as a whitespace tokenizer yields them: never empty. */
  predicate Tokens(ts: seq<string>) {
    forall i :: 0 <= i < |ts| ==> |ts[i]| >= 1
  }

  /** The check phase over `ts`, starting from the list `ws`: each token is
      classified in order, and a misspelled one is inserted as written. */
  function CheckAll(dict: set<string>, ws: seq<string>, ts: seq<string>): Tally
    requires Tokens(ts)
    decreases ts
  {
    if ts == [] then Tally(ws, 0)
    else
      var v := Classify(dict, ts[0]);
      var t := CheckAll(dict, if v.correct then ws else Insert(ws, ts[0]), ts[1..]);
      Tally(t.words, t.lookups + 1 + v.rechecks)
  }

  /** The list stays sorted and free of exact duplicates over a whole run. */
  lemma {:induction false} CheckAllKeepsValid(dict: set<string>, ws: seq<string>, ts: seq<string>)
    requires Tokens(ts) && Candidates.Valid(ws)
    ensures Candidates.Valid(CheckAll(dict, ws, ts).words)
    decreases ts
  {
    if ts != [] {
      InsertKeepsValid(ws, ts[0]);
      var v := Classify(dict, ts[0]);
      CheckAllKeepsValid(dict, if v.correct then ws else Insert(ws, ts[0]), ts[1..]);
    }
  }

  /** Every token adds one to five lookups. */
  lemma {:induction false} CheckAllLookups(dict: set<string>, ws: seq<string>, ts: seq<string>)
    requires Tokens(ts)
    ensures |ts| <= CheckAll(dict, ws, ts).lookups <= 5 * |ts|
    decreases ts
  {
    if ts != [] {
      ClassifyBounds(dict, ts[0]);
      var v := Classify(dict, ts[0]);
      CheckAllLookups(dict, if v.correct then ws else Insert(ws, ts[0]), ts[1..]);
    }
  }

  /** The list after a run holds the earlier entries and exactly the tokens
      the rule loop declared misspelled, in their original spelling. */
  lemma {:induction false} CheckAllRecords(dict: set<string>, ws: seq<string>, ts: seq<string>, x: string)
    requires Tokens(ts)
    ensures x in CheckAll(dict, ws, ts).words <==>
              x in ws || exists i :: 0 <= i < |ts| && ts[i] == x && !Classify(dict, ts[i]).correct
    decreases ts
  {
    if ts != [] {
      var v := Classify(dict, ts[0]);
      var ws' := if v.correct then ws else Insert(ws, ts[0]);
      InsertElements(ws, ts[0]);
      CheckAllRecords(dict, ws', ts[1..], x);
      if exists i :: 0 <= i < |ts| && ts[i] == x && !Classify(dict, ts[i]).correct {
        var i :| 0 <= i < |ts| && ts[i] == x && !Classify(dict, ts[i]).correct;
        if i > 0 {
          assert ts[1..][i - 1] == x;
        }
      }
      if exists i :: 0 <= i < |ts[1..]| && ts[1..][i] == x && !Classify(dict, ts[1..][i]).correct {
        var i :| 0 <= i < |ts[1..]| && ts[1..][i] == x && !Classify(dict, ts[1..][i]).correct;
        assert ts[i + 1] == x;
      }
    }
  }

  /** One step of the check phase, from the `i`-th token on. */
  lemma CheckAllStep(dict: set<string>, ws: seq<string>, ts: seq<string>, i: nat)
    requires Tokens(ts) && i < |ts|
    ensures var v := Classify(dict, ts[i]);
            var t := CheckAll(dict, if v.correct then ws else Insert(ws, ts[i]), ts[i + 1..]);
            CheckAll(dict, ws, ts[i..]) == Tally(t.words, t.lookups + 1 + v.rechecks)
  {
    assert ts[i..][0] == ts[i] && ts[i..][1..] == ts[i + 1..];
  }

  /** A dictionary word is never added to the list. */
  lemma DictionaryWordNeverRecorded(dict: set<string>, ws: seq<string>, ts: seq<string>, x: string)
    requires Tokens(ts) && x in dict && x !in ws
    ensures x !in CheckAll(dict, ws, ts).words
  {
    CheckAllRecords(dict, ws, ts, x);
    if |x| >= 1 {
      DictionaryWordIsCorrect(dict, x);
    }
  }

  /** The general rule at the head of each pass: no rule may leave a word
      shorter than its suffix allows. */
  method GeneralRule(n: nat, f: Flags) returns (g: Flags)
    ensures g == Guard(n, f)
  {
    g := f;
    if n < 4 {
      g := g - {Gerund};
      if n < 3 {
        g := g - {Possessive, Adverb};
      }
      if n < 2 {
        g := g - {Plural, Agentive, PastTense};
      }
    }
  }

  class SpellCheckerManager {
    var dict: HashTable
    /** The misspelling list; it is not cleared between checks. */
    var words: seq<string>

    ghost predicate Valid()
      reads this
    {
      Candidates.Valid(words)
    }

    constructor ()
      ensures fresh(dict) && dict.entries == {} && dict.probes == 0
      ensures words == [] && Valid()
    {
      dict := new HashTable();
      words := [];
    }

    /** The misspelling branch: an exact match ends the scan, a word that
        compares greater gets `w` in front of it, otherwise `w` goes last. */
    method InsertSorted(w: string)
      modifies this
      ensures dict == old(dict)
      ensures words == Insert(old(words), w)
    {
      if |words| == 0 {
        words := [w];
      } else {
        ghost var s := words;
        var add := true;
        var i := 0;
        while i < |words|
          invariant 0 <= i <= |words| && words == s && dict == old(dict)
          invariant Insert(s, w) == s[..i] + Insert(s[i..], w)
        {
          InsertScanStop(s, i, w);
          if words[i] == w {
            add := false;
            break;
          }
          if CompareIgnoreCase(words[i], w) > 0 {
            words := words[..i] + [w] + words[i..];
            add := false;
            break;
          }
          InsertScanStep(s, i, w);
          i := i + 1;
        }
        if add {
          assert s[i..] == [];
          words := words + [w];
        }
      }
    }

    /** The shared steps of the plural, agentive and past-tense rules: drop
        the final letter and look the rest up; on a miss, also drop a
        trailing `e` when more than one letter is left. */
    method DropAndRecheck(w0: string, r: Rule) returns (found: bool, word: string)
      requires r == Plural || r == Agentive || r == PastTense
      requires |w0| >= 2 && Matches(r, w0)
      modifies dict
      ensures dict.entries == old(dict.entries) && dict.probes > old(dict.probes)
      ensures found <==> Rewrite(r, w0) in dict.entries
      ensures !found ==> word == Next(r, w0)
    {
      word := w0[..|w0| - 1];
      assert word == Rewrite(r, w0);
      var h := GenHash(word);
      found := dict.Contains(word, h);
      if !found && |word| > 1 && word[|word| - 1] == 'e' {
        word := word[..|word| - 1];
      }
    }

    /** The gerund branch: replace `ing` by `e`, look that up, and on a miss
        drop the `e` again. */
    method GerundRecheck(w0: string) returns (found: bool, word: string)
      requires |w0| >= 4 && Matches(Gerund, w0)
      modifies dict
      ensures dict.entries == old(dict.entries) && dict.probes > old(dict.probes)
      ensures found <==> Rewrite(Gerund, w0) in dict.entries
      ensures word == Next(Gerund, w0)
    {
      word := w0[..|w0| - 3] + "e";
      assert word == Rewrite(Gerund, w0);
      ghost var v := word;
      var h := GenHash(word);
      found := dict.Contains(word, h);
      word := word[..|word| - 1];
      assert word == Repair(Gerund, v);
    }

    /** The body of the branch for rule `r`, applied to the working word
        `w0`: rewrite it and, for a re-checking rule, look the rewritten form
        up at once; `found` reports a re-check hit, otherwise `word` is the
        working word for the next pass. */
    method Fire(r: Rule, w0: string) returns (found: bool, word: string)
      requires |w0| >= MinLength(r) && Matches(r, w0)
      modifies dict
      ensures dict.entries == old(dict.entries) && dict.probes >= old(dict.probes)
      ensures found ==> Rechecks(r) && Rewrite(r, w0) in dict.entries
      ensures !found ==> (Rechecks(r) ==> Rewrite(r, w0) !in dict.entries) && word == Next(r, w0)
    {
      found := false;
      match r
      case Capitalization =>
        if |w0| > 1 {
          word := [ToLower(w0[0])] + w0[1..];
        } else {
          word := [ToLower(w0[0])];
        }
        assert word == Rewrite(Capitalization, w0);
      case Possessive =>
        word := w0[..|w0| - 2];
        assert word == Rewrite(Possessive, w0);
      case Plural =>
        found, word := DropAndRecheck(w0, Plural);
      case Agentive =>
        found, word := DropAndRecheck(w0, Agentive);
      case Gerund =>
        found, word := GerundRecheck(w0);
      case Adverb =>
        word := w0[..|w0| - 2];
        assert word == Rewrite(Adverb, w0);
      case PastTense =>
        found, word := DropAndRecheck(w0, PastTense);
    }

    /** The rule loop for one token `w`: returns whether it is correct and
        the lookups it adds, and records it in the list when no rule is
        left to apply. */
    method CheckToken(w: string) returns (correct: bool, lookups: nat)
      requires |w| >= 1
      modifies this, dict
      ensures dict == old(dict) && dict.entries == old(dict.entries)
      ensures dict.probes > old(dict.probes)
      ensures correct == Classify(dict.entries, w).correct
      ensures lookups == Lookups(dict.entries, w)
      ensures words == if correct then old(words) else Insert(old(words), w)
    {
      ghost var D := dict.entries;
      ghost var goal := Classify(D, w);
      var word := w;
      var flags := AllSet;
      lookups := 1;
      var h := GenHash(word);
      var found := dict.Contains(word, h);
      while !found
        invariant dict == old(dict) && dict.entries == D && dict.probes > old(dict.probes)
        invariant words == old(words)
        invariant |word| >= 1 && (found <==> word in D)
        invariant Run(D, word, flags).correct == goal.correct
        invariant lookups + Run(D, word, flags).rechecks == 1 + goal.rechecks
        decreases |flags|
      {
        var g := GeneralRule(|word|, flags);
        var sel := Select(word, g);
        SelectSound(word, g);
        if sel == None {
          // No rule applies: the token is misspelled.
          RunNoRule(D, word, flags);
          InsertSorted(w);
          return false, lookups;
        }
        var r := sel.value;
        if Rechecks(r) {
          lookups := lookups + 1;
        }
        var hit, next := Fire(r, word);
        if hit {
          RunRecheckHits(D, word, flags, r);
          return true, lookups;
        }
        RunFires(D, word, flags, r);
        FewerFlags(g, flags);
        DisableCounts(g, r);
        word := next;
        flags := Disable(g, r);
        h := GenHash(word);
        found := dict.Contains(word, h);
      }
      correct := true;
    }

    /** The loop of `spellCheck`: runs the rule loop on every token in
        order, and returns the lookups they add. */
    method CheckTokens(tokens: seq<string>) returns (lookup: nat)
      requires Valid() && Tokens(tokens)
      modifies this, dict
      ensures Valid()
      ensures dict == old(dict) && dict.entries == old(dict.entries)
      ensures dict.probes >= old(dict.probes) + |tokens|
      ensures words == CheckAll(dict.entries, old(words), tokens).words
      ensures lookup == CheckAll(dict.entries, old(words), tokens).lookups
    {
      ghost var D := dict.entries;
      ghost var goal := CheckAll(D, words, tokens);
      CheckAllKeepsValid(D, words, tokens);
      lookup := 0;
      var wordcount := 0;
      while wordcount < |tokens|
        invariant 0 <= wordcount <= |tokens|
        invariant dict == old(dict) && dict.entries == D
        invariant dict.probes >= old(dict.probes) + wordcount
        invariant Candidates.Valid(words)
        invariant CheckAll(D, words, tokens[wordcount..]).words == goal.words
        invariant lookup + CheckAll(D, words, tokens[wordcount..]).lookups == goal.lookups
      {
        var w := tokens[wordcount];
        CheckAllStep(D, words, tokens, wordcount);
        InsertKeepsValid(words, w);
        var correct, n := CheckToken(w);
        lookup := lookup + n;
        wordcount := wordcount + 1;
      }
      assert tokens[wordcount..] == [];
    }

    /** `spellCheck`: resets the probe counter, refuses an input without
        tokens, then checks every token and reports. */
    method SpellCheck(tokens: seq<string>) returns (r: Result<Report>)
      requires Valid() && Tokens(tokens)
      modifies this, dict
      ensures Valid()
      ensures dict == old(dict) && dict.entries == old(dict.entries)
      ensures tokens == [] ==> r == Err(EmptyInput) && words == old(words) && dict.probes == 0
      ensures tokens != [] ==>
                var t := CheckAll(dict.entries, old(words), tokens);
                words == t.words && dict.probes >= |tokens| &&
                r == Ok(Report("ArrayBasedList" + Render(words), dict.Size(), |tokens|,
                               |words|, dict.probes, t.lookups))
    {
      dict.ResetProbes();
      if |tokens| == 0 {
        return Err(EmptyInput);
      }
      var lookup := CheckTokens(tokens);
      r := Ok(Report("ArrayBasedList" + Render(words), dict.Size(), |tokens|,
                     |words|, dict.probes, lookup));
    }
  }

  /** The constructor: an empty dictionary input is refused; otherwise every
      token is added to the dictionary and the list starts empty. */
  method Create(dictTokens: seq<string>) returns (r: Result<SpellCheckerManager>)
    ensures r.Err? <==> dictTokens == []
    ensures r.Err? ==> r.error == EmptyInput
    ensures r.Ok? ==> fresh(r.value) && fresh(r.value.dict) && r.value.Valid() && r.value.words == []
    ensures r.Ok? ==> r.value.dict.entries == (set t | t in dictTokens) && r.value.dict.probes == 0
  {
    var m := new SpellCheckerManager();
    if |dictTokens| == 0 {
      return Err(EmptyInput);
    }
    var i := 0;
    while i < |dictTokens|
      invariant 0 <= i <= |dictTokens|
      invariant fresh(m) && fresh(m.dict) && m.words == [] && m.dict.probes == 0
      invariant m.dict.entries == set t | t in dictTokens[..i]
      modifies m.dict
    {
      var h := GenHash(dictTokens[i]);
      assert dictTokens[..i + 1] == dictTokens[..i] + [dictTokens[i]];
      m.dict.Add(dictTokens[i], h);
      i := i + 1;
    }
    assert dictTokens[..i] == dictTokens;
    r := Ok(m);
  }
}
