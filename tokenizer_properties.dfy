/**
 * What `Arguments::new` computes, stated without its loop: the option list
 * is the concatenation of what each argument spells, the cursor is the last
 * option so far, each key of `values` holds the last maximal run of naked
 * values that followed that cursor, and `nakedValues` is the trailing run.
 */
module TokenizerProperties {
  import opened Wrappers
  import opened Tokenizer

  /** The option tokens one argument spells, stated without the two-byte special case. */
  function OptionTokens(t: string): seq<string>
  {
    if IsLong(t) then [t] else if IsDash(t) then ShortOptions(t) else []
  }

  /** All option tokens of `toks`, in order. */
  function Options(toks: seq<string>): seq<string>
  {
    if toks == [] then [] else Options(toks[..|toks| - 1]) + OptionTokens(toks[|toks| - 1])
  }

  /** The option naked values are filed under after `toks`: the last option so far, or the empty key. */
  function Cursor(toks: seq<string>): string
  {
    LastOr(Options(toks), "")
  }

  /** Where the trailing run of naked values of `toks` starts. */
  function TrailStart(toks: seq<string>): (k: nat)
    ensures k <= |toks|
    ensures k == 0 || IsDash(toks[k - 1])
    ensures forall j :: k <= j < |toks| ==> !IsDash(toks[j])
  {
    if toks == [] then 0
    else if IsDash(toks[|toks| - 1]) then |toks|
    else TrailStart(toks[..|toks| - 1])
  }

  /** `toks[lo..hi]` is a maximal, non-empty run of naked values. */
  predicate MaximalRun(toks: seq<string>, lo: int, hi: int)
  {
    && 0 <= lo < hi <= |toks|
    && (forall j :: lo <= j < hi ==> !IsDash(toks[j]))
    && (lo == 0 || IsDash(toks[lo - 1]))
    && (hi == |toks| || IsDash(toks[hi]))
  }

  /**
   * `v`, starting at `lo`, is a maximal run of naked values filed under the
   * cursor `k`, and no naked value between its end and `bound` is filed under
   * `k`: it is the last run for `k` before `bound`.
   */
  ghost predicate LastRunBefore(toks: seq<string>, bound: nat, k: string, lo: nat, v: seq<string>)
    requires bound <= |toks|
  {
    var hi := lo + |v|;
    && MaximalRun(toks, lo, hi)
    && hi <= bound
    && v == toks[lo..hi]
    && Cursor(toks[..lo]) == k
    && forall j :: hi <= j < bound && !IsDash(toks[j]) ==> Cursor(toks[..j]) != k
  }

  /** `values` files, under each cursor met before `bound`, the last run for it. */
  ghost predicate FiledRuns(toks: seq<string>, bound: nat, values: map<string, seq<string>>)
    requires bound <= |toks|
  {
    RunsAreLast(toks, bound, values) && CursorsFiled(toks, bound, values)
  }

  /** Every vector of `values` is the last run for its key before `bound`. */
  ghost predicate RunsAreLast(toks: seq<string>, bound: nat, values: map<string, seq<string>>)
    requires bound <= |toks|
  {
    forall k :: k in values ==> exists lo: nat :: LastRunBefore(toks, bound, k, lo, values[k])
  }

  /** Every naked value before `bound` went under a key of `values`. */
  ghost predicate CursorsFiled(toks: seq<string>, bound: nat, values: map<string, seq<string>>)
    requires bound <= |toks|
  {
    forall j :: 0 <= j < bound && !IsDash(toks[j]) ==> Cursor(toks[..j]) in values
  }

  // ---------------------------------------------------------------------
  // Option tokens

  /** A two-byte `-x` is pushed verbatim, which is what the bundle rule would push too. */
  lemma {:induction false} SingleShortIsBundle(t: string)
    requires IsDash(t) && !IsLong(t) && |t| == 2
    ensures ShortOptions(t) == [t]
  {
    assert t[..1][..0] == [];
    assert t[..1] == ['-'];
    assert ShortOptions(t[..1]) == [];
    assert t[..|t| - 1] == t[..1];
    assert t == ['-', t[1]];
  }

  /** The options a bundle spells are exactly `-c` for the non-dash characters `c` of the bundle. */
  lemma {:induction false} ShortOptionsMembers(t: string, o: string)
    ensures o in ShortOptions(t) <==> |o| == 2 && o[0] == '-' && o[1] != '-' && o[1] in t
  {
    if t != [] {
      var t0, c := t[..|t| - 1], t[|t| - 1];
      ShortOptionsMembers(t0, o);
      assert t == t0 + [c];
      assert ShortOptions(t) == ShortOptions(t0) + (if c != '-' then [['-', c]] else []);
      if |o| == 2 && o[0] == '-' {
        assert o == ['-', o[1]];
      }
      assert |o| >= 2 ==> (o[1] in t <==> o[1] in t0 || o[1] == c);
    }
  }

  /** A token with two leading dashes also has one. */
  lemma LongIsDash(t: string)
    requires IsLong(t)
    ensures IsDash(t)
  {
    assert t[..1] == t[..2][..1];
  }

  lemma {:induction false} LastOrConcat(a: seq<string>, b: seq<string>, d: string)
    ensures LastOr(a + b, d) == LastOr(b, LastOr(a, d))
  {
    if b != [] {
      assert (a + b)[|a + b| - 1] == b[|b| - 1];
    } else {
      assert a + b == a;
    }
  }

  /** The loop state after `p`: the options so far, the cursor, and the trailing run of naked values. */
  lemma {:induction false} ScannedShape(p: seq<string>)
    ensures Scanned(p).args == Options(p)
    ensures Scanned(p).lastArg == Cursor(p)
    ensures Scanned(p).naked == p[TrailStart(p)..]
  {
    if p != [] {
      var p0, t := p[..|p| - 1], p[|p| - 1];
      ScannedShape(p0);
      ShapeStep(p0, t, p);
    }
  }

  lemma ShapeStep(p0: seq<string>, t: string, p: seq<string>)
    requires p == p0 + [t]
    requires Scanned(p0).args == Options(p0)
    requires Scanned(p0).lastArg == Cursor(p0)
    requires Scanned(p0).naked == p0[TrailStart(p0)..]
    ensures Scanned(p).args == Options(p)
    ensures Scanned(p).lastArg == Cursor(p)
    ensures Scanned(p).naked == p[TrailStart(p)..]
  {
    assert p[..|p| - 1] == p0;
    OptionsStep(p0, t, p);
    TrailStep(p0, t, p);
    StepOptions(Scanned(p0), t, Options(p0));
  }

  /** One step appends the token's options to the option list and moves the cursor to the last of them. */
  lemma StepOptions(st: ScanState, t: string, opts: seq<string>)
    requires st.args == opts && st.lastArg == LastOr(opts, "")
    ensures Step(st, t).args == opts + OptionTokens(t)
    ensures Step(st, t).lastArg == LastOr(opts + OptionTokens(t), "")
    ensures Step(st, t).naked == if IsDash(t) then [] else st.naked + [t]
  {
    if IsLong(t) {
    } else if IsDash(t) {
      if |t| == 2 {
        SingleShortIsBundle(t);
      } else {
        LastOrConcat(opts, ShortOptions(t), "");
      }
    } else {
      assert opts + OptionTokens(t) == opts;
    }
  }

  lemma OptionsStep(p0: seq<string>, t: string, p: seq<string>)
    requires p == p0 + [t]
    ensures Options(p) == Options(p0) + OptionTokens(t)
  {
    assert p[..|p| - 1] == p0;
  }

  lemma TrailStep(p0: seq<string>, t: string, p: seq<string>)
    requires p == p0 + [t]
    ensures IsDash(t) ==> p[TrailStart(p)..] == []
    ensures !IsDash(t) ==> p[TrailStart(p)..] == p0[TrailStart(p0)..] + [t]
  {
    assert p[..|p| - 1] == p0;
    if !IsDash(t) {
      assert TrailStart(p) == TrailStart(p0);
      assert p[TrailStart(p)..] == p0[TrailStart(p0)..] + [t];
    }
  }

  /** Naked values spell no options, so the option list does not move across a run of them. */
  lemma {:induction false} OptionsAcrossNaked(q: seq<string>, a: nat, b: nat)
    requires a <= b <= |q|
    requires forall j :: a <= j < b ==> !IsDash(q[j])
    ensures Options(q[..b]) == Options(q[..a])
    decreases b
  {
    if a < b {
      OptionsAcrossNaked(q, a, b - 1);
      assert q[..b][..b - 1] == q[..b - 1];
      assert Options(q[..b]) == Options(q[..b - 1]) + OptionTokens(q[b - 1]);
      if IsLong(q[b - 1]) {
        LongIsDash(q[b - 1]);
      }
      assert OptionTokens(q[b - 1]) == [];
    }
  }

  /** The options of a prefix are a prefix of the options. */
  lemma {:induction false} OptionsOfPrefix(q: seq<string>, a: nat)
    requires a <= |q|
    ensures Options(q[..a]) <= Options(q)
    decreases |q|
  {
    if a < |q| {
      var q0 := q[..|q| - 1];
      OptionsOfPrefix(q0, a);
      assert q0[..a] == q[..a];
    } else {
      assert q[..a] == q;
    }
  }

  // ---------------------------------------------------------------------
  // Filing runs of naked values

  /** One filed run stays the last for its key before `s` when the token list is extended. */
  lemma ExtendRun(p: seq<string>, q: seq<string>, s: nat, k: string, lo: nat, v: seq<string>)
    requires s <= |p| <= |q| && p == q[..|p|]
    requires s == 0 || IsDash(p[s - 1])
    requires LastRunBefore(p, s, k, lo, v)
    ensures LastRunBefore(q, s, k, lo, v)
  {
    var hi := lo + |v|;
    assert hi < s;
    assert q[..lo] == p[..lo];
    assert forall j :: 0 <= j < |p| ==> q[j] == p[j];
    forall j | hi <= j < s && !IsDash(q[j])
      ensures Cursor(q[..j]) != k
    {
      assert q[..j] == p[..j];
    }
  }

  /** The filing facts before `s` survive extending the token list. */
  lemma ExtendFiled(p: seq<string>, q: seq<string>, s: nat, values: map<string, seq<string>>)
    requires s <= |p| <= |q| && p == q[..|p|]
    requires s == 0 || IsDash(p[s - 1])
    requires FiledRuns(p, s, values)
    ensures FiledRuns(q, s, values)
  {
    forall k | k in values
      ensures exists lo: nat :: LastRunBefore(q, s, k, lo, values[k])
    {
      var lo: nat :| LastRunBefore(p, s, k, lo, values[k]);
      ExtendRun(p, q, s, k, lo, values[k]);
    }
    forall j | 0 <= j < s && !IsDash(q[j])
      ensures Cursor(q[..j]) in values
    {
      PrefixOfPrefix(p, q, j);
      assert Cursor(p[..j]) in values;
    }
  }

  lemma PrefixOfPrefix(p: seq<string>, q: seq<string>, j: nat)
    requires j < |p| <= |q| && p == q[..|p|]
    ensures q[j] == p[j] && q[..j] == p[..j]
  {
  }

  /** The cursor stays put across a run of naked values. */
  lemma CursorAcrossRun(q: seq<string>, s: nat, n: nat)
    requires s <= n <= |q|
    requires forall j :: s <= j < n ==> !IsDash(q[j])
    ensures forall j :: s <= j <= n ==> Cursor(q[..j]) == Cursor(q[..s])
  {
    forall j | s <= j <= n
      ensures Cursor(q[..j]) == Cursor(q[..s])
    {
      OptionsAcrossNaked(q, s, j);
    }
  }

  /** A run filed before `s` stays the last for its key up to `bound` when the run `q[s..n]` went under another key. */
  lemma OlderRunStaysLast(q: seq<string>, s: nat, n: nat, bound: nat, k: string, lo: nat, v: seq<string>)
    requires s <= n <= bound <= |q| && bound <= n + 1
    requires bound == n + 1 ==> IsDash(q[n])
    requires forall j :: s <= j <= n ==> Cursor(q[..j]) == Cursor(q[..s])
    requires s == n || k != Cursor(q[..s])
    requires LastRunBefore(q, s, k, lo, v)
    ensures LastRunBefore(q, bound, k, lo, v)
  {
    var hi := lo + |v|;
    forall j | hi <= j < bound && !IsDash(q[j])
      ensures Cursor(q[..j]) != k
    {
      if j >= s {
        assert j < n;
        assert Cursor(q[..j]) == Cursor(q[..s]);
      }
    }
  }

  /** Flushing the run `q[s..n]` under its cursor files it as the last run for that cursor, up to `bound`. */
  lemma FlushFilesBefore(q: seq<string>, s: nat, n: nat, bound: nat, values: map<string, seq<string>>)
    requires s <= n <= bound <= |q| && bound <= n + 1
    requires bound == n + 1 ==> IsDash(q[n])
    requires s == 0 || IsDash(q[s - 1])
    requires forall j :: s <= j < n ==> !IsDash(q[j])
    requires n == |q| || IsDash(q[n])
    requires forall j :: s <= j <= n ==> Cursor(q[..j]) == Cursor(q[..s])
    requires FiledRuns(q, s, values)
    ensures FiledRuns(q, bound, Flush(values, Cursor(q[..s]), q[s..n]))
  {
    FlushKeepsRunsLast(q, s, n, bound, values);
    FlushFilesCursors(q, s, n, bound, values);
  }

  lemma FlushKeepsRunsLast(q: seq<string>, s: nat, n: nat, bound: nat, values: map<string, seq<string>>)
    requires s <= n <= bound <= |q| && bound <= n + 1
    requires bound == n + 1 ==> IsDash(q[n])
    requires s == 0 || IsDash(q[s - 1])
    requires forall j :: s <= j < n ==> !IsDash(q[j])
    requires n == |q| || IsDash(q[n])
    requires forall j :: s <= j <= n ==> Cursor(q[..j]) == Cursor(q[..s])
    requires RunsAreLast(q, s, values)
    ensures RunsAreLast(q, bound, Flush(values, Cursor(q[..s]), q[s..n]))
  {
    var key := Cursor(q[..s]);
    var values' := Flush(values, key, q[s..n]);
    forall k | k in values'
      ensures exists lo: nat :: LastRunBefore(q, bound, k, lo, values'[k])
    {
      if s < n && k == key {
        assert values'[k] == q[s..n];
        FlushedRunIsLast(q, s, n, bound);
      } else {
        assert k in values && values'[k] == values[k];
        var lo: nat :| LastRunBefore(q, s, k, lo, values[k]);
        OlderRunStaysLast(q, s, n, bound, k, lo, values[k]);
      }
    }
  }

  /** The run `q[s..n]` just flushed is the last run for its cursor, up to `bound`. */
  lemma FlushedRunIsLast(q: seq<string>, s: nat, n: nat, bound: nat)
    requires s < n <= bound <= |q| && bound <= n + 1
    requires bound == n + 1 ==> IsDash(q[n])
    requires s == 0 || IsDash(q[s - 1])
    requires forall j :: s <= j < n ==> !IsDash(q[j])
    requires n == |q| || IsDash(q[n])
    ensures LastRunBefore(q, bound, Cursor(q[..s]), s, q[s..n])
  {
    var v := q[s..n];
    assert s + |v| == n;
    assert MaximalRun(q, s, n);
    assert forall j :: n <= j < bound ==> IsDash(q[j]);
  }

  lemma FlushFilesCursors(q: seq<string>, s: nat, n: nat, bound: nat, values: map<string, seq<string>>)
    requires s <= n <= bound <= |q| && bound <= n + 1
    requires bound == n + 1 ==> IsDash(q[n])
    requires forall j :: s <= j < n ==> !IsDash(q[j])
    requires forall j :: s <= j <= n ==> Cursor(q[..j]) == Cursor(q[..s])
    requires CursorsFiled(q, s, values)
    ensures CursorsFiled(q, bound, Flush(values, Cursor(q[..s]), q[s..n]))
  {
    var key := Cursor(q[..s]);
    var values' := Flush(values, key, q[s..n]);
    forall j | 0 <= j < bound && !IsDash(q[j])
      ensures Cursor(q[..j]) in values'
    {
      if j < s {
        assert Cursor(q[..j]) in values;
      } else {
        assert j < n;
        assert Cursor(q[..j]) == key;
      }
    }
  }

  /** Flushing the run `q[s..n]` under its cursor files it as the last run for that cursor. */
  lemma FlushFiles(q: seq<string>, s: nat, n: nat, values: map<string, seq<string>>)
    requires s <= n <= |q|
    requires s == 0 || IsDash(q[s - 1])
    requires forall j :: s <= j < n ==> !IsDash(q[j])
    requires n == |q| || IsDash(q[n])
    requires FiledRuns(q, s, values)
    ensures var values' := Flush(values, Cursor(q[..s]), q[s..n]);
      FiledRuns(q, n, values') && (n < |q| ==> FiledRuns(q, n + 1, values'))
  {
    CursorAcrossRun(q, s, n);
    FlushFilesBefore(q, s, n, n, values);
    if n < |q| {
      FlushFilesBefore(q, s, n, n + 1, values);
    }
  }

  /** How one argument changes `values`: a dash argument flushes the pending run, a naked one leaves it. */
  lemma ScannedValuesStep(p0: seq<string>, t: string)
    ensures var st := Scanned(p0);
      Scanned(p0 + [t]).values == if IsDash(t) then Flush(st.values, st.lastArg, st.naked) else st.values
  {
    assert (p0 + [t])[..|p0|] == p0;
    if IsLong(t) {
      LongIsDash(t);
    }
  }

  /** The cursor at the start of the trailing run is the cursor at the end. */
  lemma CursorOfTrail(p: seq<string>)
    ensures Cursor(p[..TrailStart(p)]) == Cursor(p)
  {
    OptionsAcrossNaked(p, TrailStart(p), |p|);
    assert p[..|p|] == p;
  }

  /** Before a dash argument `t`, the pending run is `p[s..|p0|]` and the cursor is the one at its start. */
  lemma DashStepFacts(p0: seq<string>, t: string)
    requires IsDash(t)
    ensures var p, s, st := p0 + [t], TrailStart(p0), Scanned(p0);
      && Cursor(p[..s]) == st.lastArg
      && st.naked == p[s..|p0|]
      && (forall j :: s <= j < |p0| ==> !IsDash(p[j]))
      && (s == 0 || IsDash(p[s - 1]))
      && IsDash(p[|p0|])
  {
    var p := p0 + [t];
    var s := TrailStart(p0);
    ScannedShape(p0);
    CursorOfTrail(p0);
    assert p[..s] == p0[..s];
    forall j | 0 <= j < |p0|
      ensures p[j] == p0[j]
    {
    }
  }

  /** A dash argument `t` after `p0` files the pending run under the cursor as the last run for it. */
  lemma DashStepFiles(p0: seq<string>, t: string, q: seq<string>)
    requires q == p0 + [t] && IsDash(t)
    requires FiledRuns(q, TrailStart(p0), Scanned(p0).values)
    ensures FiledRuns(q, |p0| + 1, Flush(Scanned(p0).values, Scanned(p0).lastArg, Scanned(p0).naked))
  {
    var st := Scanned(p0);
    DashStepFacts(p0, t);
    DashFlushFiles(q, TrailStart(p0), |p0|, st.values, st.lastArg, st.naked);
  }

  /** Flushing the run `q[s..n]` that a dash argument ends files it as the last run for its cursor. */
  lemma DashFlushFiles(q: seq<string>, s: nat, n: nat, values: map<string, seq<string>>, lastArg: string, naked: seq<string>)
    requires s <= n < |q|
    requires Cursor(q[..s]) == lastArg && naked == q[s..n]
    requires forall j :: s <= j < n ==> !IsDash(q[j])
    requires s == 0 || IsDash(q[s - 1])
    requires IsDash(q[n])
    requires FiledRuns(q, s, values)
    ensures FiledRuns(q, n + 1, Flush(values, lastArg, naked))
  {
    FlushFiles(q, s, n, values);
  }

  /** One argument more keeps `values` filing the last run of each cursor met before the trailing run. */
  lemma ScannedFiledStep(p0: seq<string>, t: string, p: seq<string>)
    requires p == p0 + [t]
    requires FiledRuns(p0, TrailStart(p0), Scanned(p0).values)
    ensures FiledRuns(p, TrailStart(p), Scanned(p).values)
  {
    assert p[..|p| - 1] == p0;
    ScannedValuesStep(p0, t);
    ExtendFiled(p0, p, TrailStart(p0), Scanned(p0).values);
    if IsDash(t) {
      DashStepFiles(p0, t, p);
    }
  }

  /** After every prefix, `values` files the last run of each cursor met before the trailing run. */
  lemma {:induction false} ScannedFiled(p: seq<string>)
    ensures FiledRuns(p, TrailStart(p), Scanned(p).values)
  {
    if p != [] {
      var p0, t := p[..|p| - 1], p[|p| - 1];
      assert p == p0 + [t];
      ScannedFiled(p0);
      ScannedFiledStep(p0, t, p);
    }
  }

  // ---------------------------------------------------------------------
  // What Arguments::new builds

  /** `args` is every option token, in order: long tokens verbatim, one `-c` per non-dash character otherwise. */
  lemma TokenizeArgs(argv: seq<string>)
    requires |argv| >= 1
    ensures Tokenize(argv).args == Options(argv[1..])
  {
    ScannedShape(argv[1..]);
  }

  /** Each option token one argument spells is the argument itself, when long, or a two-character `-c`. */
  lemma OptionTokensShape(t: string, o: string)
    requires o in OptionTokens(t)
    ensures (IsLong(o) && o == t) || (|o| == 2 && o[0] == '-' && o[1] != '-')
  {
    if !IsLong(t) {
      ShortOptionsMembers(t, o);
    }
  }

  /** Every option token is a long token of the input or a two-character `-c`; so no naked value is an option. */
  lemma {:induction false} OptionsShape(toks: seq<string>, o: string)
    requires o in Options(toks)
    ensures (IsLong(o) && o in toks) || (|o| == 2 && o[0] == '-' && o[1] != '-')
    ensures IsDash(o)
  {
    var t0, t := toks[..|toks| - 1], toks[|toks| - 1];
    if o in Options(t0) {
      OptionsShape(t0, o);
      assert o in t0 ==> o in toks;
    } else {
      OptionTokensShape(t, o);
    }
    if IsLong(o) {
      LongIsDash(o);
    } else {
      assert o[..1] == ['-'];
    }
  }

  /** `nakedValues` is only the run of naked values after the last argument starting with a dash. */
  lemma NakedValuesIsTrailingRun(argv: seq<string>)
    requires |argv| >= 1
    ensures var toks := argv[1..]; Tokenize(argv).nakedValues == toks[TrailStart(toks)..]
  {
    ScannedShape(argv[1..]);
  }

  /**
   * Each key of `values` holds a maximal run of naked values that followed
   * that key as cursor, and it is the last such run: a later run under the
   * same key replaced an earlier one. So every stored vector is non-empty.
   */
  lemma ValuesAreLastRuns(argv: seq<string>)
    requires |argv| >= 1
    ensures var toks := argv[1..]; var values := Tokenize(argv).values;
      forall k :: k in values ==> values[k] != [] && exists lo: nat :: LastRunBefore(toks, |toks|, k, lo, values[k])
  {
    var toks := argv[1..];
    ScannedFiled(toks);
    ScannedShape(toks);
    var s := TrailStart(toks);
    assert toks[s..] == toks[s..|toks|];
    OptionsAcrossNaked(toks, s, |toks|);
    assert toks[..|toks|] == toks;
    FlushFiles(toks, s, |toks|, Scanned(toks).values);
    forall k | k in Tokenize(argv).values
      ensures Tokenize(argv).values[k] != []
    {
      var lo: nat :| LastRunBefore(toks, |toks|, k, lo, Tokenize(argv).values[k]);
    }
  }

  /** Every naked value's cursor is a key of `values`: no run is lost. */
  lemma EveryRunIsFiled(argv: seq<string>)
    requires |argv| >= 1
    ensures var toks := argv[1..];
      forall j :: 0 <= j < |toks| && !IsDash(toks[j]) ==> Cursor(toks[..j]) in Tokenize(argv).values
  {
    var toks := argv[1..];
    ScannedFiled(toks);
    ScannedShape(toks);
    var s := TrailStart(toks);
    assert toks[s..] == toks[s..|toks|];
    OptionsAcrossNaked(toks, s, |toks|);
    assert toks[..|toks|] == toks;
    FlushFiles(toks, s, |toks|, Scanned(toks).values);
  }

  /** Every key of `values` is an option that was given, or the empty key of a run before any option. */
  lemma ValueKeysAreOptions(argv: seq<string>)
    requires |argv| >= 1
    ensures var a := Tokenize(argv); forall k :: k in a.values ==> k == "" || k in a.args
  {
    var toks := argv[1..];
    ValuesAreLastRuns(argv);
    TokenizeArgs(argv);
    forall k | k in Tokenize(argv).values
      ensures k == "" || k in Options(toks)
    {
      var lo: nat :| LastRunBefore(toks, |toks|, k, lo, Tokenize(argv).values[k]);
      OptionsOfPrefix(toks, lo);
    }
  }

  /** With no argument starting with a dash, there are no options and the whole input is one run under the empty key. */
  lemma {:induction false} NoDashInput(argv: seq<string>)
    requires |argv| >= 1
    requires forall j :: 1 <= j < |argv| ==> !IsDash(argv[j])
    ensures var a := Tokenize(argv); var toks := argv[1..];
      && a.args == []
      && a.nakedValues == toks
      && a.values == (if toks == [] then map[] else map["" := toks])
  {
    var toks := argv[1..];
    assert forall j :: 0 <= j < |toks| ==> !IsDash(toks[j]) by {
      forall j | 0 <= j < |toks| ensures !IsDash(toks[j]) { assert toks[j] == argv[j + 1]; }
    }
    ScannedShape(toks);
    OptionsAcrossNaked(toks, 0, |toks|);
    assert toks[..|toks|] == toks && toks[..0] == [];
    NoDashScan(toks);
  }

  lemma {:induction false} NoDashScan(toks: seq<string>)
    requires forall j :: 0 <= j < |toks| ==> !IsDash(toks[j])
    ensures Scanned(toks).values == map[] && TrailStart(toks) == 0
  {
    if toks != [] {
      NoDashScan(toks[..|toks| - 1]);
    }
  }

  // ---------------------------------------------------------------------
  // Queries on a tokenized command line

  /** `check_arg(x)` holds exactly when some argument spells the option `x`. */
  lemma {:induction false} CheckArgOnTokenized(argv: seq<string>, x: string)
    requires |argv| >= 1
    ensures var toks := argv[1..];
      CheckArg(Tokenize(argv), x) <==> exists j :: 0 <= j < |toks| && x in OptionTokens(toks[j])
  {
    TokenizeArgs(argv);
    OptionsMembers(argv[1..], x);
  }

  lemma {:induction false} OptionsMembers(toks: seq<string>, x: string)
    ensures x in Options(toks) <==> exists j :: 0 <= j < |toks| && x in OptionTokens(toks[j])
  {
    if toks != [] {
      var t0 := toks[..|toks| - 1];
      OptionsMembers(t0, x);
      if x in Options(toks) && x !in Options(t0) {
        assert x in OptionTokens(toks[|toks| - 1]);
      }
      if j :| 0 <= j < |toks| && x in OptionTokens(toks[j]) {
        if j < |t0| {
          assert toks[j] == t0[j];
        }
      }
    }
  }

  /** On a tokenized command line `get_single(k)` answers exactly for the keys of `values`. */
  lemma GetSingleOnTokenized(argv: seq<string>, k: string)
    requires |argv| >= 1
    ensures GetSingle(Tokenize(argv), k).Some? <==> k in Tokenize(argv).values
  {
    ValuesAreLastRuns(argv);
  }

  /** The empty key is never an option, so `get_passed("")` is `None` even when a leading run is filed under it. */
  lemma EmptyKeyIsNeverPassed<T>(argv: seq<string>, parse: string -> Option<T>)
    requires |argv| >= 1
    ensures !CheckArg(Tokenize(argv), "")
    ensures GetPassed(Tokenize(argv), "", parse) == None
  {
    TokenizeArgs(argv);
    if "" in Options(argv[1..]) {
      OptionsShape(argv[1..], "");
    }
  }

  /** The three failure messages of `get_passed_checked` are pairwise different. */
  lemma CheckedMessagesDistinct(arg: string)
    ensures NoOptionMessage(arg) != NoArgumentMessage(arg)
    ensures NoOptionMessage(arg) != CannotParseMessage(arg)
    ensures NoArgumentMessage(arg) != CannotParseMessage(arg)
  {
    assert NoOptionMessage(arg)[3] == '\'' && NoArgumentMessage(arg)[3] == 'a';
    assert NoOptionMessage(arg)[0] == 'N' && CannotParseMessage(arg)[0] == 'C';
    assert NoArgumentMessage(arg)[0] == 'N';
  }

  // ---------------------------------------------------------------------
  // Worked command lines

  lemma ScannedSnoc(p: seq<string>, t: string)
    ensures Scanned(p + [t]) == Step(Scanned(p), t)
  {
    assert (p + [t])[..|p|] == p;
  }

  /** A long option after `p`: pushed, the pending run flushed, the cursor moved. */
  lemma LongStep(p: seq<string>, t: string, q: seq<string>, st: ScanState)
    requires q == p + [t] && Scanned(p) == st && IsLong(t)
    ensures Scanned(q) == ScanState(st.args + [t], Flush(st.values, st.lastArg, st.naked), [], t)
  {
    ScannedSnoc(p, t);
  }

  /** A two-byte short option after `p`: pushed verbatim, the pending run flushed, the cursor moved. */
  lemma ShortStep(p: seq<string>, t: string, q: seq<string>, st: ScanState)
    requires q == p + [t] && Scanned(p) == st && IsDash(t) && !IsLong(t) && |t| == 2
    ensures Scanned(q) == ScanState(st.args + [t], Flush(st.values, st.lastArg, st.naked), [], t)
  {
    ScannedSnoc(p, t);
  }

  /** A bundle after `p`: its options pushed, the pending run flushed, the cursor on its last option. */
  lemma BundleStep(p: seq<string>, t: string, q: seq<string>, st: ScanState)
    requires q == p + [t] && Scanned(p) == st && IsDash(t) && !IsLong(t) && |t| != 2
    ensures Scanned(q)
      == ScanState(st.args + ShortOptions(t), Flush(st.values, st.lastArg, st.naked), [], LastOr(ShortOptions(t), st.lastArg))
  {
    ScannedSnoc(p, t);
  }

  /** A naked value after `p`: added to the pending run. */
  lemma NakedStep(p: seq<string>, t: string, q: seq<string>, st: ScanState)
    requires q == p + [t] && Scanned(p) == st && !IsDash(t)
    ensures Scanned(q) == ScanState(st.args, st.values, st.naked + [t], st.lastArg)
  {
    ScannedSnoc(p, t);
  }

  lemma TokenizeOf(argv: seq<string>, st: ScanState)
    requires |argv| >= 1 && Scanned(argv[1..]) == st
    ensures Tokenize(argv) == Arguments(st.args, Flush(st.values, st.lastArg, st.naked), st.naked)
  {
  }

  /** The kinds of the tokens the examples use. */
  lemma TokenKinds()
    ensures IsLong("--foo") && IsLong("--a") && IsLong("--")
    ensures !IsLong("-x") && IsDash("-x") && |"-x"| == 2
    ensures !IsLong("-abc") && IsDash("-abc") && |"-abc"| != 2
    ensures !IsLong("-") && IsDash("-") && |"-"| != 2
    ensures !IsDash("a") && !IsDash("b") && !IsDash("c") && !IsDash("v") && !IsDash("x") && !IsDash("y")
  {
    assert "--foo"[..2] == "--" && "--a"[..2] == "--" && "--"[..2] == "--";
    assert "-x"[..2] == "-x" && "-x"[..1] == "-";
    assert "-abc"[..2] == "-a" && "-abc"[..1] == "-";
    assert "-"[..1] == "-";
    assert "a"[..1] == "a" && "b"[..1] == "b" && "c"[..1] == "c";
    assert "v"[..1] == "v" && "x"[..1] == "x" && "y"[..1] == "y";
  }

  lemma LongAndShortRun()
    ensures Scanned(["--foo", "a", "b"]) == ScanState(["--foo"], map[], ["a", "b"], "--foo")
  {
    TokenKinds();
    LongStep([], "--foo", ["--foo"], Start);
    NakedStep(["--foo"], "a", ["--foo", "a"], ScanState(["--foo"], map[], [], "--foo"));
    NakedStep(["--foo", "a"], "b", ["--foo", "a", "b"], ScanState(["--foo"], map[], ["a"], "--foo"));
  }

  /**
   * `--foo a b -x c`: both runs are filed under their options, but
   * `nakedValues` keeps only the last run, `c`.
   */
  lemma LongAndShortExample()
    ensures Tokenize(["prog", "--foo", "a", "b", "-x", "c"])
      == Arguments(["--foo", "-x"], map["--foo" := ["a", "b"], "-x" := ["c"]], ["c"])
  {
    var argv := ["prog", "--foo", "a", "b", "-x", "c"];
    TokenKinds();
    LongAndShortRun();
    ShortStep(["--foo", "a", "b"], "-x", ["--foo", "a", "b", "-x"], ScanState(["--foo"], map[], ["a", "b"], "--foo"));
    var st4 := ScanState(["--foo", "-x"], map["--foo" := ["a", "b"]], [], "-x");
    NakedStep(["--foo", "a", "b", "-x"], "c", argv[1..], st4);
    TokenizeOf(argv, ScanState(["--foo", "-x"], map["--foo" := ["a", "b"]], ["c"], "-x"));
  }

  lemma BundleAbc()
    ensures ShortOptions("-abc") == ["-a", "-b", "-c"]
  {
    assert "-abc"[..3] == "-ab" && "-ab"[..2] == "-a" && "-a"[..1] == "-" && "-"[..0] == "";
  }

  /** `-abc v`: the bundle gives three options and the value goes to the last of them only. */
  lemma BundleExample()
    ensures Tokenize(["prog", "-abc", "v"]) == Arguments(["-a", "-b", "-c"], map["-c" := ["v"]], ["v"])
  {
    var argv := ["prog", "-abc", "v"];
    TokenKinds();
    BundleAbc();
    BundleStep([], "-abc", ["-abc"], Start);
    NakedStep(["-abc"], "v", argv[1..], ScanState(["-a", "-b", "-c"], map[], [], "-c"));
    TokenizeOf(argv, ScanState(["-a", "-b", "-c"], map[], ["v"], "-c"));
  }

  lemma LongThenX()
    ensures Scanned(["--a", "x"]) == ScanState(["--a"], map[], ["x"], "--a")
  {
    TokenKinds();
    LongStep([], "--a", ["--a"], Start);
    NakedStep(["--a"], "x", ["--a", "x"], ScanState(["--a"], map[], [], "--a"));
  }

  /** `--a x --a y`: the option is listed twice, and the later run replaces the earlier one. */
  lemma RepeatedOptionExample()
    ensures Tokenize(["prog", "--a", "x", "--a", "y"]) == Arguments(["--a", "--a"], map["--a" := ["y"]], ["y"])
  {
    var argv := ["prog", "--a", "x", "--a", "y"];
    TokenKinds();
    LongThenX();
    LongStep(["--a", "x"], "--a", ["--a", "x", "--a"], ScanState(["--a"], map[], ["x"], "--a"));
    NakedStep(["--a", "x", "--a"], "y", argv[1..], ScanState(["--a", "--a"], map["--a" := ["x"]], [], "--a"));
    var st := ScanState(["--a", "--a"], map["--a" := ["x"]], ["y"], "--a");
    TokenizeOf(argv, st);
    assert Flush(st.values, st.lastArg, st.naked) == map["--a" := ["y"]];
  }

  lemma LongThenXThenDash()
    ensures Scanned(["--a", "x", "-"]) == ScanState(["--a"], map["--a" := ["x"]], [], "--a")
  {
    TokenKinds();
    assert ShortOptions("-") == [] by { assert "-"[..0] == ""; }
    LongThenX();
    BundleStep(["--a", "x"], "-", ["--a", "x", "-"], ScanState(["--a"], map[], ["x"], "--a"));
  }

  /** `--a x - y`: a lone dash names no option but still cuts the run, so `y` replaces `x` under `--a`. */
  lemma LoneDashExample()
    ensures Tokenize(["prog", "--a", "x", "-", "y"]) == Arguments(["--a"], map["--a" := ["y"]], ["y"])
  {
    var argv := ["prog", "--a", "x", "-", "y"];
    TokenKinds();
    LongThenXThenDash();
    NakedStep(["--a", "x", "-"], "y", argv[1..], ScanState(["--a"], map["--a" := ["x"]], [], "--a"));
    var st := ScanState(["--a"], map["--a" := ["x"]], ["y"], "--a");
    TokenizeOf(argv, st);
    assert Flush(st.values, st.lastArg, st.naked) == map["--a" := ["y"]];
  }

  /** `-- x`: a bare double dash is an ordinary option, not an end-of-options marker. */
  lemma DoubleDashExample()
    ensures Tokenize(["prog", "--", "x"]) == Arguments(["--"], map["--" := ["x"]], ["x"])
  {
    var argv := ["prog", "--", "x"];
    TokenKinds();
    LongStep([], "--", ["--"], Start);
    NakedStep(["--"], "x", argv[1..], ScanState(["--"], map[], [], "--"));
    TokenizeOf(argv, ScanState(["--"], map[], ["x"], "--"));
  }

  /** `x --a`: a run before any option goes under the empty key, and `nakedValues` ends up empty. */
  lemma LeadingRunExample()
    ensures Tokenize(["prog", "x", "--a"]) == Arguments(["--a"], map["" := ["x"]], [])
  {
    var argv := ["prog", "x", "--a"];
    TokenKinds();
    NakedStep([], "x", ["x"], Start);
    LongStep(["x"], "--a", argv[1..], ScanState([], map[], ["x"], ""));
    TokenizeOf(argv, ScanState(["--a"], map["" := ["x"]], [], "--a"));
  }
}
