/** FIRST sets of length `k` for the nonterminals of a grammar, by iteration to a fixed point. */
module FirstSets {

  type Word = seq<nat>

  datatype Symbol = Epsilon | Terminal(t: nat) | NonTerminal(a: nat)

  type Rule = seq<Symbol>
  type Grammar = map<nat, seq<Rule>>

  // ------------------------------------------------------------------------------ derivations

  datatype Tree = Leaf(symbol: Symbol) | Node(a: nat, children: Forest)
  datatype Forest = Nil | Snoc(init: Forest, last: Tree)

  function Root(t: Tree): Symbol {
    if t.Leaf? then t.symbol else NonTerminal(t.a)
  }

  function Roots(f: Forest): Rule {
    if f.Nil? then [] else Roots(f.init) + [Root(f.last)]
  }

  function Yield(t: Tree): Word {
    match t
    case Leaf(Terminal(x)) => [x]
    case Leaf(_) => []
    case Node(_, f) => Yields(f)
  }

  function Yields(f: Forest): Word {
    if f.Nil? then [] else Yields(f.init) + Yield(f.last)
  }

  /** A derivation of height at most `h`. */
  ghost predicate Derives(g: Grammar, t: Tree, h: nat) {
    match t
    case Leaf(s) => !s.NonTerminal?
    case Node(a, f) => h > 0 && a in g && Roots(f) in g[a] && DeriveAll(g, f, h - 1)
  }

  ghost predicate DeriveAll(g: Grammar, f: Forest, h: nat) {
    f.Nil? || (DeriveAll(g, f.init, h) && Derives(g, f.last, h))
  }

  lemma {:induction false} HigherTree(g: Grammar, t: Tree, h: nat, i: nat)
    requires Derives(g, t, h) && h <= i
    ensures Derives(g, t, i)
  {
    if t.Node? {
      HigherForest(g, t.children, h - 1, i - 1);
    }
  }

  lemma {:induction false} HigherForest(g: Grammar, f: Forest, h: nat, i: nat)
    requires DeriveAll(g, f, h) && h <= i
    ensures DeriveAll(g, f, i)
  {
    if f.Snoc? {
      HigherForest(g, f.init, h, i);
      HigherTree(g, f.last, h, i);
    }
  }

  function Cut(w: Word, k: nat): Word {
    if |w| <= k then w else w[..k]
  }

  /** The word is the `k`-prefix of a terminal word that the nonterminal derives with height at
      most `h`. */
  ghost predicate FirstBy(g: Grammar, k: nat, a: nat, w: Word, h: nat) {
    exists t :: Derives(g, t, h) && Root(t) == NonTerminal(a) && Cut(Yield(t), k) == w
  }

  ghost predicate InFirst(g: Grammar, k: nat, a: nat, w: Word) {
    exists h: nat :: FirstBy(g, k, a, w, h)
  }

  ghost predicate Productive(g: Grammar, s: Symbol) {
    s.NonTerminal? ==> exists t, h: nat :: Derives(g, t, h) && Root(t) == s
  }

  /** The rule stops at the symbol `stop`, the first that derives no word, as all words of the symbols
      before it are shorter than `k`; or `stop` is its end. */
  ghost predicate StopsAt(g: Grammar, k: nat, r: Rule, stop: nat) {
    && stop <= |r|
    && (forall s :: s in r[..stop] ==> Productive(g, s))
    && (stop < |r| ==> !Productive(g, r[stop])
                       && forall f, h: nat :: DeriveAll(g, f, h) && Roots(f) == r[..stop] ==> |Yields(f)| < k)
  }

  ghost predicate Usable(g: Grammar, k: nat, r: Rule) {
    exists stop :: StopsAt(g, k, r, stop)
  }

  /** No rule can end early in front of a symbol that derives no word. */
  ghost predicate NoEarlyEnd(g: Grammar, k: nat) {
    forall a, r :: a in g && r in g[a] ==> Usable(g, k, r)
  }

  /** Above all that holds if every symbol derives some word. */
  lemma ProductiveHasNoEarlyEnd(g: Grammar, k: nat)
    requires forall a, r, s :: a in g && r in g[a] && s in r ==> Productive(g, s)
    ensures NoEarlyEnd(g, k)
  {
    hide Productive;
    forall a, r | a in g && r in g[a] ensures Usable(g, k, r) {
      assert r[..|r|] == r;
      assert StopsAt(g, k, r, |r|);
    }
  }

  /** The terminals of a grammar. */
  ghost function Alphabet(g: Grammar): (alphabet: set<nat>)
    ensures forall a, r, t :: a in g && r in g[a] && Terminal(t) in r ==> t in alphabet
  {
    set a, r, s | a in g && r in g[a] && s in r && s.Terminal? :: s.t
  }

  // ---------------------------------------------------------------------- sets of `k`-prefixes

  /** The prefixes of the words of one set followed by those of another. */
  function Appended(s: set<Word>, o: set<Word>, k: nat): set<Word> {
    set x, y | x in s && y in o :: Cut(x + y, k)
  }

  ghost predicate Short(s: set<Word>, k: nat) {
    forall w :: w in s ==> |w| <= k
  }

  class FirstSet {
    var sequences: set<Word>

    constructor ()
      ensures sequences == {[]}
    {
      sequences := {[]};
    }

    method ExhaustsK(k: nat) returns (b: bool)
      ensures b <==> forall w :: w in sequences ==> |w| >= k
    {
      b := forall w :: w in sequences ==> |w| >= k;
    }

    method AppendTerminal(t: nat, k: nat)
      requires Short(sequences, k)
      modifies this
      ensures sequences == Appended(old(sequences), {[t]}, k)
    {
      var newSequences: set<Word> := {};
      var rest := sequences;
      while rest != {}
        invariant rest <= sequences == old(sequences)
        invariant newSequences == Appended(sequences - rest, {[t]}, k)
        decreases |rest|
      {
        var s :| s in rest;
        AppendedStep(sequences - rest, s, {[t]}, k);
        assert sequences - (rest - {s}) == sequences - rest + {s};
        assert Appended({s}, {[t]}, k) == {Cut(s + [t], k)};
        if |s| < k {
          newSequences := newSequences + {s + [t]};
        } else {
          assert Cut(s + [t], k) == s;
          newSequences := newSequences + {s};
        }
        rest := rest - {s};
      }
      assert sequences - rest == sequences;
      sequences := newSequences;
    }

    method AppendSet(other: set<Word>, k: nat)
      requires Short(sequences, k) && Short(other, k) && other != {}
      modifies this
      ensures sequences == Appended(old(sequences), other, k)
    {
      var newSequences: set<Word> := {};
      var rest := sequences;
      while rest != {}
        invariant rest <= sequences == old(sequences)
        invariant newSequences == Appended(sequences - rest, other, k)
        decreases |rest|
      {
        var s :| s in rest;
        AppendedStep(sequences - rest, s, other, k);
        assert sequences - (rest - {s}) == sequences - rest + {s};
        var added := AppendTo(s, other, k);
        newSequences := newSequences + added;
        rest := rest - {s};
      }
      assert sequences - rest == sequences;
      sequences := newSequences;
    }

    method Add(other: set<Word>)
      modifies this
      ensures sequences == old(sequences) + other
    {
      sequences := sequences + other;
    }
  }

  method AppendTo(s: Word, other: set<Word>, k: nat) returns (added: set<Word>)
    requires |s| <= k && other != {}
    ensures added == Appended({s}, other, k)
  {
    added := {};
    if |s| < k {
      var rest := other;
      while rest != {}
        invariant rest <= other
        invariant added == Appended({s}, other - rest, k)
        decreases |rest|
      {
        var o :| o in rest;
        AppendedMore({s}, other - rest, o, k);
        assert other - (rest - {o}) == other - rest + {o};
        assert Appended({s}, {o}, k) == {Cut(s + o, k)};
        if |o| > 0 {
          var cat := s + o;
          added := added + {if |cat| <= k then cat else cat[..k]};
        } else {
          assert s + o == s;
          added := added + {s};
        }
        rest := rest - {o};
      }
      assert other - rest == other;
    } else {
      added := {s};
      assert forall o :: o in other ==> Cut(s + o, k) == s;
    }
  }

  lemma AppendedStep(a: set<Word>, s: Word, o: set<Word>, k: nat)
    ensures Appended(a + {s}, o, k) == Appended(a, o, k) + Appended({s}, o, k)
  {
    hide Cut;
  }

  lemma AppendedMore(s: set<Word>, a: set<Word>, o: Word, k: nat)
    ensures Appended(s, a + {o}, k) == Appended(s, a, k) + Appended(s, {o}, k)
  {
    hide Cut;
  }

  lemma AppendedShort(s: set<Word>, o: set<Word>, k: nat)
    ensures Short(Appended(s, o, k), k)
  {}

  // ------------------------------------------------------------------------ a map in progress

  type FirstMap = map<nat, set<Word>>

  ghost predicate Sound(g: Grammar, k: nat, F: FirstMap) {
    forall a :: a in F ==> a in g && F[a] != {} && Short(F[a], k) && forall w :: w in F[a] ==> InFirst(g, k, a, w)
  }

  /** What the assertions of the program demand of a map. */
  ghost predicate Proper(k: nat, F: FirstMap) {
    forall a :: a in F ==> F[a] != {} && Short(F[a], k)
  }

  /** The map has all prefixes from derivations of bounded height. */
  ghost predicate Complete(g: Grammar, k: nat, F: FirstMap, h: nat) {
    forall a: nat, w: Word :: FirstBy(g, k, a, w, h) ==> a in F && w in F[a]
  }

  ghost predicate FromForest(g: Grammar, k: nat, r: Rule, w: Word) {
    exists f, h: nat :: DeriveAll(g, f, h) && Roots(f) == r && Cut(Yields(f), k) == w
  }

  ghost predicate FromTree(g: Grammar, k: nat, s: Symbol, w: Word) {
    exists t, h: nat :: Derives(g, t, h) && Root(t) == s && Cut(Yield(t), k) == w
  }

  /** The prefixes for a sequence of symbols are right, and they are all that can be known from a
      map that is complete for some height. */
  ghost predicate RuleFirst(g: Grammar, k: nat, F: FirstMap, r: Rule, fs: set<Word>) {
    && fs != {} && Short(fs, k)
    && (forall w :: w in fs ==> FromForest(g, k, r, w))
    && forall h: nat, f :: Complete(g, k, F, h) && DeriveAll(g, f, h) && Roots(f) == r ==> Cut(Yields(f), k) in fs
  }

  ghost predicate SymbolFirst(g: Grammar, k: nat, F: FirstMap, s: Symbol, o: set<Word>) {
    && o != {} && (forall w :: w in o ==> FromTree(g, k, s, w))
    && forall h: nat, t :: Complete(g, k, F, h) && Derives(g, t, h) && Root(t) == s ==> Cut(Yield(t), k) in o
  }

  lemma CutOfCuts(x: Word, y: Word, k: nat)
    ensures Cut(Cut(x, k) + Cut(y, k), k) == Cut(x + y, k)
  {}

  lemma HigherBoth(g: Grammar, f: Forest, h: nat, t: Tree, i: nat) returns (m: nat)
    requires DeriveAll(g, f, h) && Derives(g, t, i)
    ensures DeriveAll(g, Snoc(f, t), m)
  {
    m := if h < i then i else h;
    HigherForest(g, f, h, m);
    HigherTree(g, t, i, m);
  }

  lemma AppendSound(g: Grammar, k: nat, r: Rule, s: Symbol, x: Word, y: Word)
    requires FromForest(g, k, r, x) && FromTree(g, k, s, y)
    ensures FromForest(g, k, r + [s], Cut(x + y, k))
  {
    var f, h: nat :| DeriveAll(g, f, h) && Roots(f) == r && Cut(Yields(f), k) == x;
    var t, i: nat :| Derives(g, t, i) && Root(t) == s && Cut(Yield(t), k) == y;
    var m := HigherBoth(g, f, h, t, i);
    CutOfCuts(Yields(f), Yield(t), k);
    var whole := Snoc(f, t);
    assert DeriveAll(g, whole, m) && Roots(whole) == r + [s] && Yields(whole) == Yields(f) + Yield(t);
  }

  lemma LastRoot(f: Forest, r: Rule, s: Symbol)
    requires Roots(f) == r + [s]
    ensures f.Snoc? && Roots(f.init) == r && Root(f.last) == s
  {
    assert f.Snoc?;
    var whole := Roots(f.init) + [Root(f.last)];
    assert whole[|r|] == s && whole[..|r|] == r;
    assert |Roots(f.init)| == |r|;
  }

  lemma AppendSymbol(g: Grammar, k: nat, F: FirstMap, r: Rule, s: Symbol, fs: set<Word>, o: set<Word>)
    requires RuleFirst(g, k, F, r, fs) && SymbolFirst(g, k, F, s, o)
    ensures RuleFirst(g, k, F, r + [s], Appended(fs, o, k))
  {
    var next := Appended(fs, o, k);
    hide Complete, FromForest, FromTree, DeriveAll, Derives, Yield, Root;
    AppendedShort(fs, o, k);
    var x0, y0 :| x0 in fs && y0 in o;
    assert Cut(x0 + y0, k) in next;
    forall w | w in next ensures FromForest(g, k, r + [s], w) {
      var x, y :| x in fs && y in o && w == Cut(x + y, k);
      AppendSound(g, k, r, s, x, y);
    }
    forall h: nat, f | Complete(g, k, F, h) && DeriveAll(g, f, h)
      && Roots(f) == r + [s] ensures Cut(Yields(f), k) in next {
      LastRoot(f, r, s);
      LastDerives(g, f, h);
      CutOfCuts(Yields(f.init), Yield(f.last), k);
    }
  }

  lemma LastDerives(g: Grammar, f: Forest, h: nat)
    requires DeriveAll(g, f, h) && f.Snoc?
    ensures DeriveAll(g, f.init, h) && Derives(g, f.last, h)
  {}

  lemma TerminalFirst(g: Grammar, k: nat, F: FirstMap, t: nat)
    requires k > 0
    ensures SymbolFirst(g, k, F, Terminal(t), {[t]})
  {
    var leaf := Leaf(Terminal(t));
    assert Derives(g, leaf, 0) && Cut(Yield(leaf), k) == [t];
    hide Complete;
    forall u, h: nat | Derives(g, u, h) && Root(u) == Terminal(t) ensures Cut(Yield(u), k) in {[t]} {
      assert u == leaf;
    }
  }

  lemma EpsilonFirst(g: Grammar, k: nat, F: FirstMap)
    ensures SymbolFirst(g, k, F, Epsilon, {[]})
  {
    var leaf := Leaf(Epsilon);
    assert Derives(g, leaf, 0) && Cut(Yield(leaf), k) == [];
    hide Complete;
    forall u, h: nat | Derives(g, u, h) && Root(u) == Epsilon ensures Cut(Yield(u), k) in {[]} {
      assert u == leaf;
    }
  }

  lemma NonterminalFirst(g: Grammar, k: nat, F: FirstMap, a: nat)
    requires Sound(g, k, F) && a in F
    ensures SymbolFirst(g, k, F, NonTerminal(a), F[a])
  {
    hide Derives, Yield, Cut;
    forall w | w in F[a] ensures FromTree(g, k, NonTerminal(a), w) {
      assert InFirst(g, k, a, w);
      var h: nat :| FirstBy(g, k, a, w, h);
    }
    forall h: nat, t | Complete(g, k, F, h) && Derives(g, t, h)
      && Root(t) == NonTerminal(a) ensures Cut(Yield(t), k) in F[a] {
      assert FirstBy(g, k, a, Cut(Yield(t), k), h);
    }
  }

  lemma EmptyRuleFirst(g: Grammar, k: nat, F: FirstMap)
    ensures RuleFirst(g, k, F, [], {[]})
  {
    assert DeriveAll(g, Nil, 0) && Roots(Nil) == [] && Cut(Yields(Nil), k) == [];
    hide Complete;
    forall f | Roots(f) == [] ensures Cut(Yields(f), k) == [] {
      assert f == Nil;
    }
  }

  lemma NothingAppended(fs: set<Word>, k: nat)
    requires Short(fs, k)
    ensures Appended(fs, {[]}, k) == fs
  {
    forall w | w in fs ensures Cut(w + [], k) == w {
      assert w + [] == w;
    }
    assert forall w :: w in Appended(fs, {[]}, k) ==> w in fs;
    forall w | w in fs ensures w in Appended(fs, {[]}, k) {
      assert Cut(w + [], k) == w;
    }
  }

  // ------------------------------------------------------------------------------ early break

  /** A forest for the beginning of a rule extends to the whole rule. */
  lemma {:induction false} ExtendForest(g: Grammar, f: Forest, h: nat, r: Rule) returns (whole: Forest, m: nat)
    requires DeriveAll(g, f, h) && Roots(f) <= r
    requires forall s :: s in r ==> Productive(g, s)
    ensures DeriveAll(g, whole, m) && Roots(whole) == r && Yields(f) <= Yields(whole)
    decreases |r| - |Roots(f)|
  {
    var j := |Roots(f)|;
    if j == |r| {
      whole, m := f, h;
    } else {
      var t, i := TreeFor(g, r[j]);
      var i' := HigherBoth(g, f, h, t, i);
      assert Roots(Snoc(f, t)) == r[..j + 1];
      whole, m := ExtendForest(g, Snoc(f, t), i', r);
      assert Yields(f) <= Yields(Snoc(f, t));
    }
  }

  lemma TreeFor(g: Grammar, s: Symbol) returns (t: Tree, h: nat)
    requires Productive(g, s)
    ensures Derives(g, t, h) && Root(t) == s
  {
    if s.NonTerminal? {
      t, h :| Derives(g, t, h) && Root(t) == s;
    } else {
      t, h := Leaf(s), 0;
    }
  }

  /** The beginning of a forest. */
  lemma {:induction false} FirstTrees(g: Grammar, f: Forest, h: nat, j: nat) returns (init: Forest)
    requires DeriveAll(g, f, h) && j <= |Roots(f)|
    ensures DeriveAll(g, init, h) && Roots(init) == Roots(f)[..j] && Yields(init) <= Yields(f)
  {
    if j == |Roots(f)| {
      init := f;
    } else {
      init := FirstTrees(g, f.init, h, j);
    }
  }

  lemma LongEnough(x: Word, y: Word, k: nat)
    requires x <= y && |Cut(x, k)| >= k
    ensures Cut(x, k) == Cut(y, k)
  {}

  /** Once all prefixes have length `k` the rest of the rule does not matter, since it derives
      some word. */
  lemma BreakEarly(g: Grammar, k: nat, F: FirstMap, r: Rule, j: nat, fs: set<Word>)
    requires j <= |r| && RuleFirst(g, k, F, r[..j], fs) && forall w :: w in fs ==> |w| >= k
    requires forall s :: s in r ==> Productive(g, s)
    ensures RuleFirst(g, k, F, r, fs)
  {
    hide Complete, DeriveAll, Productive, Cut, Yields;
    forall w | w in fs ensures FromForest(g, k, r, w) {
      assert FromForest(g, k, r[..j], w);
      var f, h: nat :| DeriveAll(g, f, h) && Roots(f) == r[..j] && Cut(Yields(f), k) == w;
      var whole, m := ExtendForest(g, f, h, r);
      LongEnough(Yields(f), Yields(whole), k);
    }
    forall h: nat, f | Complete(g, k, F, h) && DeriveAll(g, f, h) && Roots(f) == r ensures Cut(Yields(f), k) in fs {
      var init := FirstTrees(g, f, h, j);
      LongEnough(Yields(init), Yields(f), k);
    }
  }

  // ------------------------------------------------------------------------------ one round

  /** No derivation covered by the map uses the rule. */
  ghost predicate Unused(g: Grammar, k: nat, F: FirstMap, r: Rule) {
    forall h: nat, f :: Complete(g, k, F, h) && DeriveAll(g, f, h) ==> Roots(f) != r
  }

  lemma {:induction false} TreeAt(g: Grammar, f: Forest, h: nat, j: nat) returns (t: Tree)
    requires DeriveAll(g, f, h) && j < |Roots(f)|
    ensures Derives(g, t, h) && Root(t) == Roots(f)[j]
  {
    if j == |Roots(f)| - 1 {
      t := f.last;
    } else {
      t := TreeAt(g, f.init, h, j);
    }
  }

  lemma UnknownSymbol(g: Grammar, k: nat, F: FirstMap, r: Rule, j: nat)
    requires j < |r| && r[j].NonTerminal? && r[j].a !in F
    ensures Unused(g, k, F, r)
  {
    hide Derives, DeriveAll;
    forall h: nat, f | Complete(g, k, F, h) && DeriveAll(g, f, h) ensures Roots(f) != r {
      if Roots(f) == r {
        var t := TreeAt(g, f, h, j);
        assert FirstBy(g, k, r[j].a, Cut(Yield(t), k), h);
      }
    }
  }

  /** The outcome of a rule: its sequences, or a symbol about which nothing is known yet. */
  datatype Outcome = Sequences(words: set<Word>) | Unknown

  /** The rest of a rule, behind symbols with the sequences `fs`. */
  function Analyzed(k: nat, F: FirstMap, rest: Rule, fs: set<Word>): Outcome {
    if rest == [] || (forall w :: w in fs ==> |w| >= k) then Sequences(fs)
    else
      match rest[0]
      case Epsilon => Analyzed(k, F, rest[1..], fs)
      case Terminal(t) => Analyzed(k, F, rest[1..], Appended(fs, {[t]}, k))
      case NonTerminal(a) => if a in F then Analyzed(k, F, rest[1..], Appended(fs, F[a], k)) else Unknown
  }

  method AnalyzeRule(k: nat, F: FirstMap, r: Rule) returns (fs: FirstSet, success: bool)
    requires Proper(k, F)
    ensures fresh(fs)
    ensures Analyzed(k, F, r, {[]}) == if success then Sequences(fs.sequences) else Unknown
  {
    hide Appended;
    fs := new FirstSet();
    success := true;
    var j := 0;
    assert r[0..] == r;
    while j < |r|
      invariant 0 <= j <= |r| && fresh(fs) && success && Short(fs.sequences, k)
      invariant Analyzed(k, F, r[j..], fs.sequences) == Analyzed(k, F, r, {[]})
    {
      var exhausted := fs.ExhaustsK(k);
      if exhausted {
        return;
      }
      assert r[j..][1..] == r[j + 1..];
      match r[j] {
        case Epsilon =>
        case Terminal(t) =>
          AppendedShort(fs.sequences, {[t]}, k);
          fs.AppendTerminal(t, k);
        case NonTerminal(a) =>
          if a in F {
            AppendedShort(fs.sequences, F[a], k);
            fs.AppendSet(F[a], k);
          } else {
            success := false;
            return;
          }
      }
      j := j + 1;
    }
  }

  /** What the outcome of a rule says about derivations. */
  ghost predicate OutcomeRight(g: Grammar, k: nat, F: FirstMap, r: Rule, out: Outcome) {
    match out
    case Sequences(fs) => RuleFirst(g, k, F, r, fs)
    case Unknown => Unused(g, k, F, r)
  }

  /** A rule that succeeds yields only true prefixes, and all that can be known from the map; a rule
      that stops is used by no derivation the map covers. */
  lemma AnalyzedIsRight(g: Grammar, k: nat, F: FirstMap, r: Rule)
    requires Sound(g, k, F) && Usable(g, k, r)
    ensures OutcomeRight(g, k, F, r, Analyzed(k, F, r, {[]}))
  {
    var stop :| StopsAt(g, k, r, stop);
    EmptyRuleFirst(g, k, F);
    assert r[..0] == [] && r[0..] == r;
    StopInRule(g, k, r, stop);
    hide *;
    AnalyzedFrom(g, k, F, r, stop, 0, {[]});
  }

  lemma StopInRule(g: Grammar, k: nat, r: Rule, stop: nat)
    requires StopsAt(g, k, r, stop)
    ensures stop <= |r| && (stop < |r| ==> !Productive(g, r[stop]))
    ensures stop == |r| ==> forall s :: s in r ==> Productive(g, s)
    ensures forall j :: 0 <= j < stop ==> Productive(g, r[j])
  {
    hide Productive;
    assert r[..|r|] == r;
    forall j | 0 <= j < stop ensures Productive(g, r[j]) {
      assert r[..stop][j] in r[..stop];
    }
  }

  lemma {:induction false} AnalyzedFrom(g: Grammar, k: nat, F: FirstMap, r: Rule, stop: nat, j: nat, fs: set<Word>)
    requires Sound(g, k, F) && StopsAt(g, k, r, stop)
    requires j <= stop <= |r| && RuleFirst(g, k, F, r[..j], fs)
    ensures OutcomeRight(g, k, F, r, Analyzed(k, F, r[j..], fs))
    decreases |r| - j
  {
    hide *;
    StopInRule(g, k, r, stop);
    OutcomeMeans(g, k, F, r);
    if j == |r| {
      assert r[..j] == r;
      NothingLeft(k, F, r[j..], fs);
    } else if forall w :: w in fs ==> |w| >= k {
      if stop < |r| {
        NotExhausted(g, k, F, r, stop, j, fs);
        assert false;
      }
      BreakEarly(g, k, F, r, j, fs);
      NothingLeft(k, F, r[j..], fs);
    } else {
      RuleFirstShort(g, k, F, r[..j], fs);
      assert r[..j + 1] == r[..j] + [r[j]];
      OneMoreSymbol(k, F, r, j, fs);
      NotYet(g, k, F, r, stop, j);
      match r[j]
      case Epsilon =>
        EpsilonFirst(g, k, F);
        AppendSymbol(g, k, F, r[..j], Epsilon, fs, {[]});
        NothingAppended(fs, k);
        AnalyzedFrom(g, k, F, r, stop, j + 1, fs);
      case Terminal(t) =>
        TerminalFirst(g, k, F, t);
        AppendSymbol(g, k, F, r[..j], r[j], fs, {[t]});
        AnalyzedFrom(g, k, F, r, stop, j + 1, Appended(fs, {[t]}, k));
      case NonTerminal(a) =>
        if a in F {
          NonterminalFirst(g, k, F, a);
          AppendSymbol(g, k, F, r[..j], r[j], fs, F[a]);
          AnalyzedFrom(g, k, F, r, stop, j + 1, Appended(fs, F[a], k));
        } else {
          UnknownSymbol(g, k, F, r, j);
        }
    }
  }

  lemma OutcomeMeans(g: Grammar, k: nat, F: FirstMap, r: Rule)
    ensures forall fs :: OutcomeRight(g, k, F, r, Sequences(fs)) <==> RuleFirst(g, k, F, r, fs)
    ensures OutcomeRight(g, k, F, r, Unknown) <==> Unused(g, k, F, r)
  {
    hide RuleFirst, Unused;
  }

  lemma NothingLeft(k: nat, F: FirstMap, rest: Rule, fs: set<Word>)
    requires rest == [] || forall w :: w in fs ==> |w| >= k
    ensures Analyzed(k, F, rest, fs) == Sequences(fs)
  {}

  lemma OneMoreSymbol(k: nat, F: FirstMap, r: Rule, j: nat, fs: set<Word>)
    requires j < |r| && exists w :: w in fs && |w| < k
    ensures var s, rest := r[j], r[j + 1..];
            Analyzed(k, F, r[j..], fs) ==
            if s.Epsilon? then Analyzed(k, F, rest, fs)
            else if s.Terminal? then Analyzed(k, F, rest, Appended(fs, {[s.t]}, k))
            else if s.a in F then Analyzed(k, F, rest, Appended(fs, F[s.a], k))
            else Unknown
  {
    hide Appended;
    assert r[j..][1..] == r[j + 1..];
  }

  /** A symbol with known prefixes derives some word, so the rule does not stop at it. */
  lemma NotYet(g: Grammar, k: nat, F: FirstMap, r: Rule, stop: nat, j: nat)
    requires Sound(g, k, F) && j <= stop <= |r| && j < |r| && (stop < |r| ==> !Productive(g, r[stop]))
    ensures !r[j].NonTerminal? || r[j].a in F ==> j < stop
  {
    if r[j].NonTerminal? && r[j].a in F {
      KnownIsProductive(g, k, F, r[j].a);
    }
  }

  lemma KnownIsProductive(g: Grammar, k: nat, F: FirstMap, a: nat)
    requires Sound(g, k, F) && a in F
    ensures Productive(g, NonTerminal(a))
  {
    hide Derives, Yield, Cut;
    var w :| w in F[a];
    assert InFirst(g, k, a, w);
    var h: nat :| FirstBy(g, k, a, w, h);
  }

  /** In front of the symbol at which the rule stops some sequence is still too short. */
  lemma NotExhausted(g: Grammar, k: nat, F: FirstMap, r: Rule, stop: nat, j: nat, fs: set<Word>)
    requires StopsAt(g, k, r, stop) && j <= stop < |r| && RuleFirst(g, k, F, r[..j], fs)
    ensures exists w :: w in fs && |w| < k
  {
    hide Complete, DeriveAll, Productive, Yields;
    var w :| w in fs;
    assert FromForest(g, k, r[..j], w);
    var f, h: nat :| DeriveAll(g, f, h) && Roots(f) == r[..j] && Cut(Yields(f), k) == w;
    assert r[..j] <= r[..stop];
    var whole, m := ExtendForest(g, f, h, r[..stop]);
    assert |Yields(f)| <= |Yields(whole)| < k;
  }

  lemma {:induction false} AnalyzedProper(k: nat, F: FirstMap, rest: Rule, fs: set<Word>)
    requires Proper(k, F) && fs != {} && Short(fs, k)
    ensures var out := Analyzed(k, F, rest, fs); out.Sequences? ==> out.words != {} && Short(out.words, k)
  {
    hide Appended, Cut;
    if rest != [] && exists w :: w in fs && |w| < k {
      match rest[0]
      case Epsilon =>
        AnalyzedProper(k, F, rest[1..], fs);
      case Terminal(t) =>
        AppendedSome(fs, {[t]}, k);
        AnalyzedProper(k, F, rest[1..], Appended(fs, {[t]}, k));
      case NonTerminal(a) =>
        if a in F {
          AppendedSome(fs, F[a], k);
          AnalyzedProper(k, F, rest[1..], Appended(fs, F[a], k));
        }
    }
  }

  lemma AppendedSome(s: set<Word>, o: set<Word>, k: nat)
    requires s != {} && o != {}
    ensures Appended(s, o, k) != {} && Short(Appended(s, o, k), k)
  {
    AppendedShort(s, o, k);
    hide Cut;
    var x, y :| x in s && y in o;
    assert Cut(x + y, k) in Appended(s, o, k);
  }

  lemma RuleFirstShort(g: Grammar, k: nat, F: FirstMap, r: Rule, fs: set<Word>)
    requires RuleFirst(g, k, F, r, fs)
    ensures Short(fs, k) && fs != {}
  {}

  /** The new map has all prefixes of derivations that use the rule and are otherwise covered by
      the old map. */
  ghost predicate Accounted(g: Grammar, k: nat, F: FirstMap, next: FirstMap, a: nat, r: Rule) {
    forall h: nat, f :: Complete(g, k, F, h) && DeriveAll(g, f, h) && Roots(f) == r ==>
        a in next && Cut(Yields(f), k) in next[a]
  }

  function Merged(out: Outcome, more: Outcome): Outcome {
    if out.Unknown? then more else if more.Unknown? then out else Sequences(out.words + more.words)
  }

  /** All rules of one nonterminal. */
  function Collected(k: nat, F: FirstMap, rules: seq<Rule>): Outcome {
    if rules == [] then Unknown
    else Merged(Collected(k, F, rules[..|rules| - 1]), Analyzed(k, F, rules[|rules| - 1], {[]}))
  }

  /** The map of the next round. */
  function RoundOf(g: Grammar, k: nat, F: FirstMap): FirstMap {
    map a | a in g && Collected(k, F, g[a]).Sequences? :: Collected(k, F, g[a]).words
  }

  lemma WordsAreFirst(g: Grammar, k: nat, F: FirstMap, a: nat, r: Rule, fs: set<Word>)
    requires a in g && r in g[a] && RuleFirst(g, k, F, r, fs)
    ensures forall w :: w in fs ==> InFirst(g, k, a, w)
  {
    hide Complete, Yields, Cut;
    forall w | w in fs ensures InFirst(g, k, a, w) {
      assert FromForest(g, k, r, w);
      var f, h: nat :| DeriveAll(g, f, h) && Roots(f) == r && Cut(Yields(f), k) == w;
      assert Derives(g, Node(a, f), h + 1) && Yield(Node(a, f)) == Yields(f);
      assert FirstBy(g, k, a, w, h + 1);
    }
  }

  lemma IncludedIsAccounted(g: Grammar, k: nat, F: FirstMap, next: FirstMap, a: nat, r: Rule, fs: set<Word>)
    requires RuleFirst(g, k, F, r, fs) && a in next && fs <= next[a]
    ensures Accounted(g, k, F, next, a, r)
  {
    hide Complete, Yields, Cut, DeriveAll, FromForest, Short;
  }

  lemma UnusedIsAccounted(g: Grammar, k: nat, F: FirstMap, next: FirstMap, a: nat, r: Rule)
    requires Unused(g, k, F, r)
    ensures Accounted(g, k, F, next, a, r)
  {
    hide Complete, DeriveAll, Yields, Cut;
  }

  /** All rules are accounted for, so derivations may be higher by one. */
  lemma RoundCompletes(g: Grammar, k: nat, F: FirstMap, next: FirstMap, h: nat)
    requires forall a, r :: a in g && r in g[a] ==> Accounted(g, k, F, next, a, r)
    requires Complete(g, k, F, h)
    ensures Complete(g, k, next, h + 1)
  {
    hide FirstBy, Accounted;
    var i := h + 1;
    forall a: nat, w: Word | FirstBy(g, k, a, w, i) ensures a in next && w in next[a] {
      WordAccounted(g, k, F, next, a, w, h);
    }
    assert Complete(g, k, next, i);
  }

  lemma WordAccounted(g: Grammar, k: nat, F: FirstMap, next: FirstMap, a: nat, w: Word, h: nat)
    requires FirstBy(g, k, a, w, h + 1) && Complete(g, k, F, h)
    requires forall a, r :: a in g && r in g[a] ==> Accounted(g, k, F, next, a, r)
    ensures a in next && w in next[a]
  {
    var t :| Derives(g, t, h + 1) && Root(t) == NonTerminal(a) && Cut(Yield(t), k) == w;
    hide Complete, Accounted, Cut, Yields;
    NodeAccounted(g, k, F, next, t, h);
  }

  lemma NodeAccounted(g: Grammar, k: nat, F: FirstMap, next: FirstMap, t: Tree, h: nat)
    requires t.Node? && Derives(g, t, h + 1) && Complete(g, k, F, h)
    requires forall a, r :: a in g && r in g[a] ==> Accounted(g, k, F, next, a, r)
    ensures t.a in next && Cut(Yield(t), k) in next[t.a]
  {
    hide Complete, Cut;
    assert Accounted(g, k, F, next, t.a, Roots(t.children));
  }

  /** Recomputes the sets of all nonterminals from the map of the round before. */
  method Round(g: Grammar, k: nat, F: FirstMap) returns (next: FirstMap)
    requires Proper(k, F)
    ensures next == RoundOf(g, k, F)
  {
    next := map[];
    var rest := g.Keys;
    hide Proper, Collected;
    while rest != {}
      invariant rest <= g.Keys
      invariant forall a :: a in next <==> a in g && a !in rest && Collected(k, F, g[a]).Sequences?
      invariant forall a :: a in next ==> Collected(k, F, g[a]) == Sequences(next[a])
      decreases |rest|
    {
      var a :| a in rest;
      next := AnalyzeRules(k, F, next, a, g[a]);
      rest := rest - {a};
    }
  }

  method AnalyzeRules(k: nat, F: FirstMap, before: FirstMap, a: nat, rules: seq<Rule>) returns (next: FirstMap)
    requires Proper(k, F) && a !in before
    ensures a in next <==> Collected(k, F, rules).Sequences?
    ensures a in next ==> Collected(k, F, rules) == Sequences(next[a])
    ensures forall b :: b != a ==> (b in next <==> b in before) && (b in before ==> next[b] == before[b])
  {
    next := before;
    var i := 0;
    while i < |rules|
      invariant 0 <= i <= |rules|
      invariant a in next <==> Collected(k, F, rules[..i]).Sequences?
      invariant a in next ==> Collected(k, F, rules[..i]) == Sequences(next[a])
      invariant forall b :: b != a ==> (b in next <==> b in before) && (b in before ==> next[b] == before[b])
    {
      var fs, success := AnalyzeRule(k, F, rules[i]);
      assert rules[..i + 1][..i] == rules[..i] && rules[..i + 1][i] == rules[i];
      hide Analyzed, Proper;
      if success {
        next := next[a := if a in next then next[a] + fs.sequences else fs.sequences];
      }
      i := i + 1;
    }
    assert rules[..i] == rules;
  }

  lemma {:induction false} CollectedHas(k: nat, F: FirstMap, rules: seq<Rule>, r: Rule)
    requires r in rules && Analyzed(k, F, r, {[]}).Sequences?
    ensures Collected(k, F, rules).Sequences? && Analyzed(k, F, r, {[]}).words <= Collected(k, F, rules).words
  {
    hide Analyzed;
    var init := rules[..|rules| - 1];
    assert rules == init + [rules[|rules| - 1]];
    if r != rules[|rules| - 1] {
      CollectedHas(k, F, init, r);
    }
  }

  lemma {:induction false} CollectedFrom(k: nat, F: FirstMap, rules: seq<Rule>, w: Word) returns (r: Rule)
    requires Collected(k, F, rules).Sequences? && w in Collected(k, F, rules).words
    ensures r in rules && Analyzed(k, F, r, {[]}).Sequences? && w in Analyzed(k, F, r, {[]}).words
  {
    hide Analyzed;
    var last := rules[|rules| - 1];
    var out := Analyzed(k, F, last, {[]});
    if out.Sequences? && w in out.words {
      r := last;
    } else {
      r := CollectedFrom(k, F, rules[..|rules| - 1], w);
    }
  }

  lemma {:induction false} CollectedProper(k: nat, F: FirstMap, rules: seq<Rule>)
    requires Proper(k, F) && Collected(k, F, rules).Sequences?
    ensures Collected(k, F, rules).words != {} && Short(Collected(k, F, rules).words, k)
  {
    AnalyzedProper(k, F, rules[|rules| - 1], {[]});
    hide Analyzed, Proper;
    if Collected(k, F, rules[..|rules| - 1]).Sequences? {
      CollectedProper(k, F, rules[..|rules| - 1]);
    }
  }

  /** Every round yields sets as the assertions demand them, for any grammar. */
  lemma RoundIsProper(g: Grammar, k: nat, F: FirstMap)
    requires Proper(k, F)
    ensures Proper(k, RoundOf(g, k, F))
  {
    hide Collected;
    forall a | a in RoundOf(g, k, F) ensures RoundOf(g, k, F)[a] != {} && Short(RoundOf(g, k, F)[a], k) {
      CollectedProper(k, F, g[a]);
    }
  }

  /** A round is sound and covers derivations that are higher by one. */
  lemma RoundIsRight(g: Grammar, k: nat, F: FirstMap)
    requires NoEarlyEnd(g, k) && Sound(g, k, F)
    ensures Sound(g, k, RoundOf(g, k, F))
    ensures forall h: nat :: Complete(g, k, F, h) ==> Complete(g, k, RoundOf(g, k, F), h + 1)
  {
    var next := RoundOf(g, k, F);
    SoundIsProper(g, k, F);
    RoundIsProper(g, k, F);
    hide *;
    forall a, w | a in next && w in next[a] ensures a in g && InFirst(g, k, a, w) {
      RoundWord(g, k, F, a, w);
    }
    ProperIsSound(g, k, next);
    forall a, r | a in g && r in g[a] ensures Accounted(g, k, F, next, a, r) {
      RuleAccounted(g, k, F, a, r);
    }
    forall h: nat | Complete(g, k, F, h) ensures Complete(g, k, next, h + 1) {
      RoundCompletes(g, k, F, next, h);
    }
  }

  lemma SoundIsProper(g: Grammar, k: nat, F: FirstMap)
    requires Sound(g, k, F)
    ensures Proper(k, F)
  {
    hide InFirst;
  }

  lemma ProperIsSound(g: Grammar, k: nat, F: FirstMap)
    requires Proper(k, F) && forall a, w :: a in F && w in F[a] ==> a in g && InFirst(g, k, a, w)
    ensures Sound(g, k, F)
  {
    hide InFirst;
    forall a | a in F ensures a in g {
      var w :| w in F[a];
    }
  }

  lemma RoundWord(g: Grammar, k: nat, F: FirstMap, a: nat, w: Word)
    requires NoEarlyEnd(g, k) && Sound(g, k, F) && a in RoundOf(g, k, F) && w in RoundOf(g, k, F)[a]
    ensures a in g && InFirst(g, k, a, w)
  {
    var r := CollectedFrom(k, F, g[a], w);
    hide Usable, Sound, InFirst, Analyzed, Productive, RuleFirst, Unused;
    AnalyzedIsRight(g, k, F, r);
    WordsAreFirst(g, k, F, a, r, Analyzed(k, F, r, {[]}).words);
  }

  lemma RuleAccounted(g: Grammar, k: nat, F: FirstMap, a: nat, r: Rule)
    requires NoEarlyEnd(g, k) && Sound(g, k, F) && a in g && r in g[a]
    ensures Accounted(g, k, F, RoundOf(g, k, F), a, r)
  {
    hide Usable, Sound, Analyzed, Productive, RuleFirst, Unused, Accounted, Collected;
    AnalyzedIsRight(g, k, F, r);
    var out := Analyzed(k, F, r, {[]});
    if out.Sequences? {
      CollectedHas(k, F, g[a], r);
      IncludedIsAccounted(g, k, F, RoundOf(g, k, F), a, r, out.words);
    } else {
      UnusedIsAccounted(g, k, F, RoundOf(g, k, F), a, r);
    }
  }

  // ------------------------------------------------------------------------------ termination

  /** All words over the alphabet of length at most `k`. */
  ghost function Words(alphabet: set<nat>, k: nat): set<Word> {
    if k == 0 then {[]} else {[]} + set w, x | w in Words(alphabet, k - 1) && x in alphabet :: w + [x]
  }

  lemma {:induction false} WordsMember(alphabet: set<nat>, k: nat, w: Word)
    requires |w| <= k && forall i :: 0 <= i < |w| ==> w[i] in alphabet
    ensures w in Words(alphabet, k)
  {
    if w != [] {
      var init := w[..|w| - 1];
      WordsMember(alphabet, k - 1, init);
      assert w == init + [w[|w| - 1]];
    }
  }

  ghost predicate Over(alphabet: set<nat>, w: Word) {
    forall i :: 0 <= i < |w| ==> w[i] in alphabet
  }

  lemma {:induction false} YieldOver(g: Grammar, t: Tree, h: nat)
    requires Derives(g, t, h) && (Root(t).Terminal? ==> Root(t).t in Alphabet(g))
    ensures Over(Alphabet(g), Yield(t))
  {
    if t.Node? {
      YieldsOver(g, t.children, h - 1);
    }
  }

  lemma {:induction false} YieldsOver(g: Grammar, f: Forest, h: nat)
    requires DeriveAll(g, f, h) && forall t :: Terminal(t) in Roots(f) ==> t in Alphabet(g)
    ensures Over(Alphabet(g), Yields(f))
  {
    hide Alphabet;
    if f.Snoc? {
      assert Root(f.last) in Roots(f);
      YieldsOver(g, f.init, h);
      YieldOver(g, f.last, h);
    }
  }

  lemma FirstIsWord(g: Grammar, k: nat, a: nat, w: Word, h: nat)
    requires FirstBy(g, k, a, w, h)
    ensures a in g && w in Words(Alphabet(g), k)
  {
    var t :| Derives(g, t, h) && Root(t) == NonTerminal(a) && Cut(Yield(t), k) == w;
    hide Alphabet;
    YieldOver(g, t, h);
    WordsMember(Alphabet(g), k, w);
  }

  lemma HigherFirst(g: Grammar, k: nat, a: nat, w: Word, h: nat, i: nat)
    requires FirstBy(g, k, a, w, h) && h <= i
    ensures FirstBy(g, k, a, w, i)
  {
    var t :| Derives(g, t, h) && Root(t) == NonTerminal(a) && Cut(Yield(t), k) == w;
    HigherTree(g, t, h, i);
  }

  /** Some height suffices for finitely many prefixes. */
  lemma {:induction false} CommonHeight(g: Grammar, k: nat, pairs: set<(nat, Word)>) returns (h: nat)
    ensures forall p :: p in pairs && InFirst(g, k, p.0, p.1) ==> FirstBy(g, k, p.0, p.1, h)
    decreases |pairs|
  {
    hide FirstBy;
    h := 0;
    if pairs != {} {
      var p :| p in pairs;
      h := CommonHeight(g, k, pairs - {p});
      if InFirst(g, k, p.0, p.1) {
        var i: nat :| FirstBy(g, k, p.0, p.1, i);
        var m := if h < i then i else h;
        HigherFirst(g, k, p.0, p.1, i, m);
        forall q | q in pairs && q != p && InFirst(g, k, q.0, q.1) ensures FirstBy(g, k, q.0, q.1, m) {
          assert q in pairs - {p};
          HigherFirst(g, k, q.0, q.1, h, m);
        }
        h := m;
      } else {
        assert forall q :: q in pairs && q != p ==> q in pairs - {p};
      }
    }
  }

  /** The map holds exactly the nonterminals that derive some word, with exactly their prefixes. */
  ghost predicate Exact(g: Grammar, k: nat, F: FirstMap) {
    && (forall a: nat :: a in F <==> Productive(g, NonTerminal(a)))
    && forall a: nat, w: Word :: a in F ==> (w in F[a] <==> InFirst(g, k, a, w))
  }

  /** Some height suffices for everything. */
  lemma SufficientHeight(g: Grammar, k: nat) returns (h: nat)
    ensures forall a: nat, w: Word :: InFirst(g, k, a, w) ==> FirstBy(g, k, a, w, h)
  {
    var pairs := set a, w | a in g.Keys && w in Words(Alphabet(g), k) :: (a, w);
    h := CommonHeight(g, k, pairs);
    hide Alphabet, FirstBy;
    forall a: nat, w: Word | InFirst(g, k, a, w) ensures FirstBy(g, k, a, w, h) {
      var i: nat :| FirstBy(g, k, a, w, i);
      FirstIsWord(g, k, a, w, i);
      assert (a, w) in pairs;
    }
  }

  lemma CompleteIsExact(g: Grammar, k: nat, F: FirstMap, h: nat)
    requires Sound(g, k, F) && Complete(g, k, F, h)
    requires forall a: nat, w: Word :: InFirst(g, k, a, w) ==> FirstBy(g, k, a, w, h)
    ensures Exact(g, k, F)
  {
    hide FirstBy;
    forall a: nat ensures a in F <==> Productive(g, NonTerminal(a)) {
      if a in F {
        KnownIsProductive(g, k, F, a);
      }
      if Productive(g, NonTerminal(a)) {
        SomeFirst(g, k, a);
      }
    }
    hide InFirst;
  }

  lemma SomeFirst(g: Grammar, k: nat, a: nat)
    requires Productive(g, NonTerminal(a))
    ensures exists w :: InFirst(g, k, a, w)
  {
    var t, h: nat :| Derives(g, t, h) && Root(t) == NonTerminal(a);
    assert FirstBy(g, k, a, Cut(Yield(t), k), h);
    assert InFirst(g, k, a, Cut(Yield(t), k));
  }

  lemma {:induction false} FixedPointComplete(g: Grammar, k: nat, F: FirstMap, h: nat)
    requires forall i: nat :: Complete(g, k, F, i) ==> Complete(g, k, F, i + 1)
    ensures Complete(g, k, F, h)
  {
    if h == 0 {
      NoFlatNonterminal(g, k, F);
    } else {
      FixedPointComplete(g, k, F, h - 1);
    }
  }

  lemma NoFlatNonterminal(g: Grammar, k: nat, F: FirstMap)
    ensures Complete(g, k, F, 0)
  {}

  /** The iteration ends, although its rounds need not grow, and its result is exact. */
  method ComputeFirst(g: Grammar, k: nat) returns (F: FirstMap)
    requires NoEarlyEnd(g, k)
    ensures Exact(g, k, F)
    ensures (forall a :: a in g ==> Productive(g, NonTerminal(a))) ==> F.Keys == g.Keys
  {
    F := map[];
    ghost var h := SufficientHeight(g, k);
    ghost var round: nat := 0;
    NoFlatNonterminal(g, k, F);
    assert Sound(g, k, F);
    hide *;
    while true
      invariant Sound(g, k, F) && Complete(g, k, F, round) && round <= h + 1
      decreases h + 1 - round
    {
      SoundIsProper(g, k, F);
      RoundIsRight(g, k, F);
      var next := Round(g, k, F);
      if F == next {
        FixedPointComplete(g, k, F, h);
        CompleteIsExact(g, k, F, h);
        ExactKeys(g, k, F);
        break;
      }
      if round >= h {
        SettledMaps(g, k, F, next, round, h);
      }
      F := next;
      round := round + 1;
    }
  }

  /** From the sufficient height on nothing changes. */
  lemma SettledMaps(g: Grammar, k: nat, F: FirstMap, next: FirstMap, round: nat, h: nat)
    requires Sound(g, k, F) && Sound(g, k, next) && round >= h
    requires Complete(g, k, F, round) && Complete(g, k, next, round + 1)
    requires forall a: nat, w: Word :: InFirst(g, k, a, w) ==> FirstBy(g, k, a, w, h)
    ensures F == next
  {
    hide *;
    CompleteLower(g, k, F, h, round);
    CompleteLower(g, k, next, h, round + 1);
    CompleteIsExact(g, k, F, h);
    CompleteIsExact(g, k, next, h);
    ExactIsUnique(g, k, F, next);
  }

  lemma CompleteLower(g: Grammar, k: nat, F: FirstMap, h: nat, i: nat)
    requires Complete(g, k, F, i) && h <= i
    ensures Complete(g, k, F, h)
  {
    hide FirstBy;
    forall a: nat, w: Word | FirstBy(g, k, a, w, h) ensures a in F && w in F[a] {
      HigherFirst(g, k, a, w, h, i);
    }
  }

  lemma ExactIsUnique(g: Grammar, k: nat, F: FirstMap, next: FirstMap)
    requires Exact(g, k, F) && Exact(g, k, next)
    ensures F == next
  {
    hide InFirst;
    forall a | a in F ensures a in next && F[a] == next[a] {
      assert forall w :: w in F[a] <==> w in next[a];
    }
    hide Productive;
  }

  lemma ExactKeys(g: Grammar, k: nat, F: FirstMap)
    requires Exact(g, k, F)
    ensures (forall a :: a in g ==> Productive(g, NonTerminal(a))) ==> F.Keys == g.Keys
  {
    forall a | a in F ensures a in g {
      var t, h: nat :| Derives(g, t, h) && Root(t) == NonTerminal(a);
    }
  }

  // --------------------------------------------------------------- without productive symbols

  /** `A → a | C` and `C → C`, where `C` derives no word. */
  function Useless(): Grammar {
    map[0 := [[Terminal(0)], [NonTerminal(1)]], 1 := [[NonTerminal(1)]]]
  }

  /** Symbols that derive no word do no harm if rules stop at them. */
  lemma UselessHasNoEarlyEnd(k: nat)
    requires k > 0
    ensures NoEarlyEnd(Useless(), k)
    ensures Productive(Useless(), NonTerminal(0)) && !Productive(Useless(), NonTerminal(1))
  {
    var g := Useless();
    assert g[0] == [[Terminal(0)], [NonTerminal(1)]] && g[1] == [[NonTerminal(1)]] && g.Keys == {0, 1};
    hide Useless;
    var whole := Snoc(Nil, Leaf(Terminal(0)));
    assert Derives(g, Node(0, whole), 1) by {
      assert Roots(whole) == [Terminal(0)] && DeriveAll(g, whole, 0);
    }
    forall t, h: nat ensures !(Derives(g, t, h) && Root(t) == NonTerminal(1)) {
      CircularDerivesNothing(g, t, h);
    }
    assert StopsAt(g, k, [Terminal(0)], 1);
    assert StopsAt(g, k, [NonTerminal(1)], 0);
  }

  lemma {:induction false} CircularDerivesNothing(g: Grammar, t: Tree, h: nat)
    requires 1 in g && g[1] == [[NonTerminal(1)]]
    ensures !(Derives(g, t, h) && Root(t) == NonTerminal(1))
  {
    if Derives(g, t, h) && Root(t) == NonTerminal(1) {
      LastRoot(t.children, [], NonTerminal(1));
      CircularDerivesNothing(g, t.children.last, h - 1);
    }
  }

  /** The map after some rounds. */
  function Rounds(g: Grammar, k: nat, i: nat): FirstMap {
    if i == 0 then map[] else RoundOf(g, k, Rounds(g, k, i - 1))
  }

  /** `A → D C | B`, `B → A`, `C → C`, `D → d | E` and `E → ε`, where `C` derives no word. */
  function Restless(): Grammar {
    map[
      0 := [[NonTerminal(3), NonTerminal(2)], [NonTerminal(1)]],
      1 := [[NonTerminal(0)]],
      2 := [[NonTerminal(2)]],
      3 := [[Terminal(0)], [NonTerminal(4)]],
      4 := [[Epsilon]]
    ]
  }

  /** Before `D` is known to derive the empty word, the first rule of `A` ends early and yields `d`;
      afterwards it stops at `C`, and `d` is handed on between `A` and `B`. */
  function Handed(a: nat): FirstMap {
    map[a := {[0]}, 3 := {[0], []}, 4 := {[]}]
  }

  lemma OneSymbol(k: nat, F: FirstMap, s: Symbol)
    requires k > 0 && Proper(k, F)
    ensures Analyzed(k, F, [s], {[]}) ==
            match s
            case Epsilon => Sequences({[]})
            case Terminal(t) => Sequences({[t]})
            case NonTerminal(a) => if a in F then Sequences(F[a]) else Unknown
  {
    var none: Word := [];
    assert [s][1..] == [] && none in {none} && |none| < k;
    hide Appended;
    match s
    case Epsilon =>
    case Terminal(t) => AppendedToNothing({[t]}, k);
    case NonTerminal(a) => if a in F {
      AppendedToNothing(F[a], k);
    }
  }

  lemma AppendedToNothing(o: set<Word>, k: nat)
    requires Short(o, k)
    ensures Appended({[]}, o, k) == o
  {
    var none: Word := [];
    forall w | w in o ensures none + w == w && Cut(none + w, k) == w {}
    forall w | w in o ensures w in Appended({none}, o, k) {
      assert Cut(none + w, k) == w;
    }
  }

  /** The first rule of `A` ends early behind `D`, or stops at `C`. */
  lemma FirstRule(F: FirstMap)
    requires Proper(1, F) && 2 !in F
    ensures Analyzed(1, F, [NonTerminal(3), NonTerminal(2)], {[]}) ==
            if 3 in F && [] !in F[3] then Sequences(F[3]) else Unknown
  {
    var none: Word := [];
    var r := [NonTerminal(3), NonTerminal(2)];
    hide Appended, Proper;
    StepOfRule(F, r, {none}, none);
    if 3 in F {
      assert Short(F[3], 1) by { ProperAt(1, F, 3); }
      AppendedToNothing(F[3], 1);
      assert r[1..] == [NonTerminal(2)];
      SecondSymbol(F, [NonTerminal(2)], F[3]);
    }
    hide *;
  }

  lemma ProperAt(k: nat, F: FirstMap, a: nat)
    requires Proper(k, F) && a in F
    ensures F[a] != {} && Short(F[a], k)
  {}

  lemma StepOfRule(F: FirstMap, r: Rule, fs: set<Word>, w: Word)
    requires r != [] && r[0].NonTerminal? && w in fs && |w| < 1
    ensures Analyzed(1, F, r, fs) == if r[0].a in F then Analyzed(1, F, r[1..], Appended(fs, F[r[0].a], 1)) else Unknown
  {
    hide Appended;
  }

  lemma SecondSymbol(F: FirstMap, r: Rule, fs: set<Word>)
    requires r != [] && r[0].NonTerminal? && r[0].a !in F
    ensures Analyzed(1, F, r, fs) == if [] in fs then Unknown else Sequences(fs)
  {
    var none: Word := [];
    hide Appended;
    if none in fs {
      StepOfRule(F, r, fs, none);
    } else {
      assert forall w: Word :: |w| < 1 ==> w == none;
    }
  }

  lemma CollectTwo(k: nat, F: FirstMap, r: Rule, q: Rule)
    ensures Collected(k, F, [r]) == Analyzed(k, F, r, {[]})
    ensures Collected(k, F, [r, q]) == Merged(Analyzed(k, F, r, {[]}), Analyzed(k, F, q, {[]}))
  {
    hide Analyzed;
    var one: seq<Rule> := [r];
    assert one[..0] == [] && [r, q][..1] == one;
  }

  /** One round on this grammar. */
  lemma RestlessRound(F: FirstMap)
    requires Proper(1, F) && 2 !in F && (4 in F ==> F[4] == {[]})
    ensures var next := RoundOf(Restless(), 1, F);
            && (forall a :: a in next ==> a < 5) && 2 !in next
            && 3 in next && next[3] == (if 4 in F then {[0], []} else {[0]})
            && 4 in next && next[4] == {[]}
            && (1 in next <==> 0 in F) && (1 in next ==> next[1] == F[0])
            && (1 !in F ==> (0 in next <==> 3 in F && [] !in F[3]) && (0 in next ==> next[0] == F[3]))
            && (3 in F && [] in F[3] ==> (0 in next <==> 1 in F) && (0 in next ==> next[0] == F[1]))
  {
    RestlessRules(F);
    hide Analyzed, Collected, Proper, RoundOf, Restless;
    FirstRule(F);
    OneSymbol(1, F, NonTerminal(1));
    CollectTwo(1, F, [NonTerminal(3), NonTerminal(2)], [NonTerminal(1)]);
    OneSymbol(1, F, NonTerminal(0));
    CollectTwo(1, F, [NonTerminal(0)], [NonTerminal(0)]);
    OneSymbol(1, F, NonTerminal(2));
    CollectTwo(1, F, [NonTerminal(2)], [NonTerminal(2)]);
    OneSymbol(1, F, Terminal(0));
    OneSymbol(1, F, NonTerminal(4));
    CollectTwo(1, F, [Terminal(0)], [NonTerminal(4)]);
    OneSymbol(1, F, Epsilon);
    CollectTwo(1, F, [Epsilon], [Epsilon]);
    var none, d: Word := [], [0];
    assert {d} + {none} == {d, none};
  }

  /** The next map has the collected sequences of the rules. */
  ghost predicate Collects(F: FirstMap, next: FirstMap, a: nat, rules: seq<Rule>) {
    && (a in next <==> Collected(1, F, rules).Sequences?)
    && (a in next ==> next[a] == Collected(1, F, rules).words)
  }

  lemma RestlessRules(F: FirstMap)
    ensures var next := RoundOf(Restless(), 1, F);
            && (forall a :: a in next ==> a < 5)
            && Collects(F, next, 0, [[NonTerminal(3), NonTerminal(2)], [NonTerminal(1)]])
            && Collects(F, next, 1, [[NonTerminal(0)]]) && Collects(F, next, 2, [[NonTerminal(2)]])
            && Collects(F, next, 3, [[Terminal(0)], [NonTerminal(4)]]) && Collects(F, next, 4, [[Epsilon]])
  {
    hide Collected;
  }

  /** The map alternates between two values from the second round on, so the iteration never ends:
      the loop leaves only if a round changes nothing. */
  lemma {:induction false} RoundsAlternate(i: nat)
    ensures Rounds(Restless(), 1, 2 * i + 2) == Handed(0) && Rounds(Restless(), 1, 2 * i + 3) == Handed(1)
    ensures forall j: nat :: j <= 2 * i + 2 ==> Rounds(Restless(), 1, j + 1) != Rounds(Restless(), 1, j)
  {
    hide *;
    if i == 0 {
      StartOfRestless();
    } else {
      RoundsAlternate(i - 1);
      NextRound(2 * i + 1);
      NextRound(2 * i + 2);
      HandedOn(1);
    }
    HandedOn(0);
    forall j: nat | j <= 2 * i + 2 ensures Rounds(Restless(), 1, j + 1) != Rounds(Restless(), 1, j) {
      assert i > 0 && j <= 2 * i ==> j <= 2 * (i - 1) + 2;
    }
  }

  lemma NextRound(i: nat)
    ensures Rounds(Restless(), 1, i + 1) == RoundOf(Restless(), 1, Rounds(Restless(), 1, i))
  {
    hide RoundOf, Restless;
  }

  lemma HandedOn(a: nat)
    requires a < 2
    ensures RoundOf(Restless(), 1, Handed(a)) == Handed(1 - a) && Handed(0) != Handed(1)
  {
    hide *;
    HandedMeans(a);
    RestlessRound(Handed(a));
    IsHanded(RoundOf(Restless(), 1, Handed(a)), 1 - a);
  }

  lemma HandedMeans(a: nat)
    requires a < 2
    ensures var F := Handed(a);
            && Proper(1, F) && a in F && 1 - a !in F && 2 !in F && 3 in F && 4 in F
            && F[a] == {[0]} && F[3] == {[0], []} && F[4] == {[]}
    ensures Handed(0) != Handed(1)
  {
    assert 0 in Handed(0) && 0 !in Handed(1);
  }

  lemma IsHanded(F: FirstMap, a: nat)
    requires a < 2 && (forall x :: x in F ==> x < 5) && 2 !in F && a in F && 1 - a !in F && 3 in F && 4 in F
    requires F[a] == {[0]} && F[3] == {[0], []} && F[4] == {[]}
    ensures F == Handed(a)
  {}

  /** The map after the first round. */
  ghost predicate IsFirst(F: FirstMap) {
    && (forall a :: a in F ==> a == 3 || a == 4) && 3 in F && 4 in F
    && F[3] == {[0]} && F[4] == {[]}
  }

  lemma StartOfRestless()
    ensures var g := Restless();
            && Rounds(g, 1, 2) == Handed(0) && Rounds(g, 1, 3) == Handed(1)
            && Rounds(g, 1, 1) != Rounds(g, 1, 0) && Rounds(g, 1, 2) != Rounds(g, 1, 1)
  {
    hide *;
    NoRound();
    NextRound(0);
    NextRound(1);
    NextRound(2);
    FirstRound();
    SecondRound(Rounds(Restless(), 1, 1));
    HandedOn(0);
    HandedMeans(0);
  }

  lemma NoRound()
    ensures Rounds(Restless(), 1, 0) == map[]
  {}

  lemma FirstRound()
    ensures IsFirst(RoundOf(Restless(), 1, map[])) && RoundOf(Restless(), 1, map[]) != map[]
  {
    RestlessRound(map[]);
    hide RoundOf, Restless;
  }

  lemma SecondRound(F: FirstMap)
    requires IsFirst(F)
    ensures RoundOf(Restless(), 1, F) == Handed(0) != F
  {
    hide *;
    FirstMeans(F);
    RestlessRound(F);
    HandedMeans(0);
    IsHanded(RoundOf(Restless(), 1, F), 0);
  }

  lemma FirstMeans(F: FirstMap)
    requires IsFirst(F)
    ensures Proper(1, F) && 0 !in F && 1 !in F && 2 !in F && 3 in F && 4 in F
    ensures F[3] == {[0]} && [] !in F[3] && F[4] == {[]}
  {
    forall a | a in F ensures F[a] != {} && Short(F[a], 1) {
      assert a == 3 ==> F[a] == {[0]};
    }
  }
}
