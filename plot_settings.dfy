/**
 * The small text and sequence rules of `Plot`: the whole-token field-name rewriting of
 * `compile_function`, the OR-joined cut per source, the composite source key and its split,
 * bins specs, legend labels, cut masking in `data` and the row filter `prefilter`.
 */
module PlotSettings {
  import opened Outcomes
  import opened Seqs
  import Binning

  /** A string setting as `_get` leaves it: absent, or the stripped text. */
  type Setting = Option<string>

  /** Python truthiness of a setting: present and not empty. */
  predicate Given(s: Setting)
  {
    s.Some? && |s.value| > 0
  }

  /** `'{}'.format(s)`: an absent setting prints as `None`. */
  function Show(s: Setting): string
  {
    if s.Some? then s.value else "None"
  }

  // ----- compile_function: whole-token field-name rewriting -----

  /** `\w` of Python 2's `re` on byte strings. */
  predicate IsWordChar(c: char)
  {
    'a' <= c <= 'z' || 'A' <= c <= 'Z' || '0' <= c <= '9' || c == '_'
  }

  /** A string made of word characters only, such as a column name. */
  predicate IsWord(s: string)
  {
    forall i :: 0 <= i < |s| ==> IsWordChar(s[i])
  }

  /** The pattern `(?<!\w)v(?!\w)` matches `x` at position i: `v` occurs there, and neither
    * neighbour is a word character. */
  predicate TokenAt(x: string, v: string, i: nat)
  {
    && i + |v| <= |x| && x[i..i + |v|] == v
    && (i == 0 || !IsWordChar(x[i - 1]))
    && (i + |v| == |x| || !IsWordChar(x[i + |v|]))
  }

  /** `re.sub` from position i on: leftmost, non-overlapping matches are replaced by `rep`; the
    * look-behind and look-ahead see the original string. */
  function SubFrom(x: string, v: string, rep: string, i: nat): string
    requires |v| > 0 && i <= |x|
    decreases |x| - i
  {
    if i == |x| then ""
    else if TokenAt(x, v, i) then rep + SubFrom(x, v, rep, i + |v|)
    else [x[i]] + SubFrom(x, v, rep, i + 1)
  }

  /** `re.sub('(?<!\w)' + re.escape(v) + '(?!\w)', rep, x)`. */
  function SubToken(x: string, v: string, rep: string): string
    requires |v| > 0
  {
    SubFrom(x, v, rep, 0)
  }

  /** The replacement text for field `v`: `row["v"]`. */
  function Quoted(v: string): string
  {
    "row[\"" + v + "\"]"
  }

  /** The field names an expression may use: the table's columns plus `rate`, `count` and `weight`. */
  function FieldSet(colnames: seq<string>): set<string>
  {
    (set c | c in colnames) + {"rate", "count", "weight"}
  }

  predicate Distinct(s: seq<string>)
  {
    forall i, j :: 0 <= i < j < |s| ==> s[i] != s[j]
  }

  /** The rewriting loop of `compile_function` as a fold: each field in turn, in the order the
    * field set is iterated. */
  function Rewrite(x: string, order: seq<string>): string
    requires forall k :: 0 <= k < |order| ==> |order[k]| > 0
    decreases |order|
  {
    if |order| == 0 then x else Rewrite(SubToken(x, order[0], Quoted(order[0])), order[1..])
  }

  /**
   * `compile_function` up to the text handed to `eval`: every field of the table is rewritten in
   * turn (`order` is the iteration order of the field set) and the result is wrapped as the body
   * of a one-argument lambda.
   */
  method CompileFunction(x: string, colnames: seq<string>, order: seq<string>) returns (code: string)
    requires Distinct(order) && (set f | f in order) == FieldSet(colnames)
    requires forall k :: 0 <= k < |order| ==> |order[k]| > 0
    ensures code == "lambda row: (" + Rewrite(x, order) + ")"
  {
    var body := x;
    for k := 0 to |order|
      invariant Rewrite(body, order[k..]) == Rewrite(x, order)
    {
      assert order[k..][1..] == order[k + 1..];
      body := SubToken(body, order[k], Quoted(order[k]));
    }
    code := "lambda row: (" + body + ")";
  }

  /** The scan copies every position from i on where no match starts. */
  lemma {:induction false} SubFromCopies(x: string, v: string, rep: string, i: nat)
    requires |v| > 0 && i <= |x|
    requires forall j :: i <= j < |x| ==> !TokenAt(x, v, j)
    ensures SubFrom(x, v, rep, i) == x[i..]
    decreases |x| - i
  {
    if i < |x| {
      SubFromCopies(x, v, rep, i + 1);
      assert x[i..] == [x[i]] + x[i + 1..];
    }
  }

  /** Text in which the name never stands as a whole token is left as it is. */
  lemma {:induction false} SubTokenUntouched(x: string, v: string, rep: string)
    requires |v| > 0
    requires forall j :: 0 <= j < |x| ==> !TokenAt(x, v, j)
    ensures SubToken(x, v, rep) == x
  {
    SubFromCopies(x, v, rep, 0);
  }

  /** The name on its own is rewritten. */
  lemma {:induction false} SubTokenWhole(v: string, rep: string)
    requires |v| > 0
    ensures SubToken(v, v, rep) == rep
  {
    assert TokenAt(v, v, 0) by {
      assert v[0..|v|] == v;
    }
    assert SubFrom(v, v, rep, |v|) == "";
  }

  /** A name inside a longer (or different) identifier is left untouched. */
  lemma {:induction false} SubTokenInsideIdentifier(x: string, v: string, rep: string)
    requires |v| > 0 && IsWord(x) && x != v
    ensures SubToken(x, v, rep) == x
  {
    forall j | 0 <= j < |x|
      ensures !TokenAt(x, v, j)
    {
      if j > 0 {
        assert IsWordChar(x[j - 1]);
      } else if j + |v| < |x| {
        assert IsWordChar(x[j + |v|]);
      } else if j + |v| == |x| {
        assert x[j..j + |v|] == x;
      }
    }
    SubTokenUntouched(x, v, rep);
  }

  /** The local reasons why a name of word characters cannot match at position j: the window
    * holds a non-word character at offset t, a word character precedes it, or one follows it. */
  lemma {:induction false} NoTokenWhere(x: string, w: string, j: nat, t: nat)
    requires IsWord(w) && |w| > 0 && j < |x|
    ensures t < |w| && j + t < |x| && !IsWordChar(x[j + t]) ==> !TokenAt(x, w, j)
    ensures j > 0 && IsWordChar(x[j - 1]) ==> !TokenAt(x, w, j)
    ensures j + |w| < |x| && IsWordChar(x[j + |w|]) ==> !TokenAt(x, w, j)
  {
    if t < |w| && j + t < |x| && !IsWordChar(x[j + t]) && j + |w| <= |x| {
      assert x[j..j + |w|][t] == x[j + t];
      assert IsWordChar(w[t]);
    }
  }

  /** Every piece of `row["v"]` outside the name itself is punctuation or `row`, so a field other
    * than `v` and `row` leaves the replacement text alone. */
  lemma {:induction false} QuotedUntouched(v: string, w: string)
    requires IsWord(v) && IsWord(w) && |w| > 0 && w != v && w != "row"
    ensures SubToken(Quoted(v), w, Quoted(w)) == Quoted(v)
  {
    var x := Quoted(v);
    var n := |v|;
    assert |x| == n + 7;
    assert x[..3] == "row" && x[3] == '[' && x[4] == '"';
    assert x[5..5 + n] == v && x[5 + n] == '"' && x[6 + n] == ']';
    forall j | 0 <= j < |x|
      ensures !TokenAt(x, w, j)
    {
      if j == 0 {
        NoTokenWhere(x, w, j, 3);
        if |w| < 3 {
          assert x[|w|] == x[..3][|w|];
        } else if |w| == 3 {
          assert x[..3] == x[0..3];
        } else {
          assert !IsWordChar(x[j + 3]);
        }
      } else if j < 3 {
        NoTokenWhere(x, w, j, 0);
        assert x[j - 1] == x[..3][j - 1];
      } else if j < 5 || j >= 5 + n {
        NoTokenWhere(x, w, j, 0);
        assert !IsWordChar(x[j + 0]);
      } else if j > 5 {
        NoTokenWhere(x, w, j, 0);
        assert x[j - 1] == x[5..5 + n][j - 6];
      } else {
        NoTokenWhere(x, w, j, n);
        if |w| < n {
          assert x[j + |w|] == x[5..5 + n][|w|];
        } else if |w| == n {
          assert x[5..5 + n] == x[j..j + |w|];
        } else {
          assert !IsWordChar(x[j + n]);
        }
      }
    }
    SubTokenUntouched(x, w, Quoted(w));
  }

  /** Once `v` has been replaced, the remaining fields (none of them `v` or `row`) keep it. */
  lemma {:induction false} RewriteQuoted(v: string, order: seq<string>)
    requires IsWord(v)
    requires forall k :: 0 <= k < |order| ==> |order[k]| > 0 && IsWord(order[k])
    requires v !in order && "row" !in order
    ensures Rewrite(Quoted(v), order) == Quoted(v)
    decreases |order|
  {
    if |order| > 0 {
      QuotedUntouched(v, order[0]);
      assert order[0] in order;
      RewriteQuoted(v, order[1..]);
    }
  }

  /** An expression that is just a field name compiles to that field of the row, whatever the
    * iteration order, provided no column is called `row`. */
  lemma {:induction false} RewriteName(v: string, order: seq<string>)
    requires IsWord(v) && v in order && Distinct(order)
    requires forall k :: 0 <= k < |order| ==> |order[k]| > 0 && IsWord(order[k])
    requires "row" !in order
    ensures Rewrite(v, order) == Quoted(v)
    decreases |order|
  {
    if order[0] == v {
      SubTokenWhole(v, Quoted(v));
      forall k | 0 <= k < |order[1..]|
        ensures order[1..][k] != v
      {
        assert order[1..][k] == order[k + 1];
      }
      RewriteQuoted(v, order[1..]);
    } else {
      SubTokenInsideIdentifier(v, order[0], Quoted(order[0]));
      assert Distinct(order[1..]) by {
        forall i, j | 0 <= i < j < |order[1..]|
          ensures order[1..][i] != order[1..][j]
        {
          assert order[1..][i] == order[i + 1] && order[1..][j] == order[j + 1];
        }
      }
      RewriteName(v, order[1..]);
    }
  }

  /** As written: a column named `row` rewritten after another field rewrites the `row` of that
    * field's replacement as well, so `x` compiles to `row["row"]["x"]`. */
  lemma {:induction false} RowColumnCorruptsEarlierFields()
    ensures Rewrite("x", ["x", "row"]) == "row[\"row\"][\"x\"]"
    ensures Rewrite("x", ["x", "row"]) != Quoted("x")
  {
    SubTokenWhole("x", Quoted("x"));
    var rep := Quoted("row");
    var x := Quoted("x");
    assert TokenAt(x, "row", 0) by {
      assert x[0..3] == "row";
    }
    forall j | 3 <= j < |x|
      ensures !TokenAt(x, "row", j)
    {
      if j + 3 <= |x| {
        assert x[j..j + 3][0] == x[j] != 'r';
      }
    }
    SubFromCopies(x, "row", rep, 3);
    assert SubToken(x, "row", rep) == rep + x[3..];
    assert ["x", "row"][1..] == ["row"];
    assert ["row"][1..] == [];
    assert rep + x[3..] == "row[\"row\"][\"x\"]";
  }

  /** The field, if any, that stands as a whole token at position i. */
  function MatchAny(x: string, fields: seq<string>, i: nat): (r: Option<string>)
    ensures r.Some? ==> r.value in fields && TokenAt(x, r.value, i)
    ensures r.None? ==> forall k :: 0 <= k < |fields| ==> !TokenAt(x, fields[k], i)
  {
    if |fields| == 0 then None
    else if TokenAt(x, fields[0], i) then Some(fields[0])
    else MatchAny(x, fields[1..], i)
  }

  /** Corrected rewriting: one left-to-right pass that replaces every whole-token field name at
    * once, so replacement text is never scanned again. */
  function SubAllFrom(x: string, fields: seq<string>, i: nat): string
    requires forall k :: 0 <= k < |fields| ==> |fields[k]| > 0
    requires i <= |x|
    decreases |x| - i
  {
    if i == |x| then ""
    else match MatchAny(x, fields, i)
      case Some(w) => Quoted(w) + SubAllFrom(x, fields, i + |w|)
      case None => [x[i]] + SubAllFrom(x, fields, i + 1)
  }

  function SubAll(x: string, fields: seq<string>): string
    requires forall k :: 0 <= k < |fields| ==> |fields[k]| > 0
  {
    SubAllFrom(x, fields, 0)
  }

  /** Corrected: a field name on its own compiles to that field of the row, with no condition on
    * the other column names. */
  lemma {:induction false} SubAllName(v: string, fields: seq<string>)
    requires IsWord(v) && v in fields
    requires forall k :: 0 <= k < |fields| ==> |fields[k]| > 0
    ensures SubAll(v, fields) == Quoted(v)
  {
    assert TokenAt(v, v, 0) by {
      assert v[0..|v|] == v;
    }
    var m := MatchAny(v, fields, 0);
    assert m.Some?;
    var w := m.value;
    assert w == v by {
      assert v[0..|w|] == w;
    }
    assert SubAllFrom(v, fields, |v|) == "";
  }

  lemma {:induction false} MatchOne(x: string, v: string, i: nat)
    ensures MatchAny(x, [v], i) == if TokenAt(x, v, i) then Some(v) else None
  {
    assert [v][1..] == [];
  }

  /** With a single field the one-pass rewriting is the rewriting of `compile_function`. */
  lemma {:induction false} SubAllSingle(x: string, v: string, i: nat)
    requires |v| > 0 && i <= |x|
    ensures SubAllFrom(x, [v], i) == SubFrom(x, v, Quoted(v), i)
    decreases |x| - i
  {
    if i < |x| {
      SingleStep(x, v, i);
      if TokenAt(x, v, i) {
        SubAllSingle(x, v, i + |v|);
      } else {
        SubAllSingle(x, v, i + 1);
      }
    }
  }

  /** One step of both rewritings with a single field. */
  lemma {:induction false} SingleStep(x: string, v: string, i: nat)
    requires |v| > 0 && i < |x|
    ensures TokenAt(x, v, i) ==>
      && SubAllFrom(x, [v], i) == Quoted(v) + SubAllFrom(x, [v], i + |v|)
      && SubFrom(x, v, Quoted(v), i) == Quoted(v) + SubFrom(x, v, Quoted(v), i + |v|)
    ensures !TokenAt(x, v, i) ==>
      && SubAllFrom(x, [v], i) == [x[i]] + SubAllFrom(x, [v], i + 1)
      && SubFrom(x, v, Quoted(v), i) == [x[i]] + SubFrom(x, v, Quoted(v), i + 1)
  {
    MatchOne(x, v, i);
  }

  // ----- joined_cuts: one OR-ed cut per source -----

  /** What `_prepare_data` reads of one plot: its source key (`sr`) and its cut expression (`c`). */
  datatype PlotSource = PlotSource(key: Setting, cut: Setting)

  /** The cut texts of the plots drawn from source `s`, in plot order (an absent cut reads `None`). */
  function CutsOf(plots: seq<PlotSource>, s: string): seq<string>
  {
    if |plots| == 0 then []
    else
      var p := plots[|plots| - 1];
      CutsOf(plots[..|plots| - 1], s) + (if Given(p.key) && p.key.value == s then [Show(p.cut)] else [])
  }

  /** `(c1) or (c2) or ...`, built as the loop of `_prepare_data` builds it. */
  function JoinOr(cuts: seq<string>): (r: string)
    requires |cuts| > 0
  {
    if |cuts| == 1 then "(" + cuts[0] + ")"
    else JoinOr(cuts[..|cuts| - 1]) + " or (" + cuts[|cuts| - 1] + ")"
  }

  /** The cut filters per source: the OR of the cuts of all plots drawing from the source, dropped
    * as soon as the joined text contains `(None)` (some plot of the source has no cut). */
  method JoinedCuts(plots: seq<PlotSource>) returns (joined: map<string, string>)
    ensures forall s :: s in joined <==> |CutsOf(plots, s)| > 0 && !Contains(JoinOr(CutsOf(plots, s)), "(None)")
    ensures forall s :: s in joined ==> joined[s] == JoinOr(CutsOf(plots, s))
  {
    var acc: map<string, string> := map[];
    for i := 0 to |plots|
      invariant forall s :: s in acc <==> |CutsOf(plots[..i], s)| > 0
      invariant forall s :: s in acc ==> acc[s] == JoinOr(CutsOf(plots[..i], s))
    {
      var p := plots[i];
      forall t
        ensures Given(p.key) && p.key.value == t ==> CutsOf(plots[..i + 1], t) == CutsOf(plots[..i], t) + [Show(p.cut)]
        ensures !(Given(p.key) && p.key.value == t) ==> CutsOf(plots[..i + 1], t) == CutsOf(plots[..i], t)
      {
        assert plots[..i + 1][..i] == plots[..i];
        assert CutsOf(plots[..i], t) + [] == CutsOf(plots[..i], t);
      }
      if Given(p.key) {
        var s := p.key.value;
        JoinOrSnoc(CutsOf(plots[..i], s), Show(p.cut));
        if s in acc {
          acc := acc[s := acc[s] + " or (" + Show(p.cut) + ")"];
        } else {
          acc := acc[s := "(" + Show(p.cut) + ")"];
        }
      }
    }
    assert plots[..|plots|] == plots;
    joined := acc;
    var keys := acc.Keys;
    while keys != {}
      invariant keys <= acc.Keys
      invariant forall s :: s in joined <==> s in acc && (s in keys || !Contains(acc[s], "(None)"))
      invariant forall s :: s in joined ==> joined[s] == acc[s]
      decreases keys
    {
      var s :| s in keys;
      if Contains(acc[s], "(None)") {
        joined := joined - {s};
      }
      keys := keys - {s};
    }
  }

  /** One more cut extends the joined text by ` or (cut)`, or starts it. */
  lemma {:induction false} JoinOrSnoc(cuts: seq<string>, cut: string)
    ensures |cuts| == 0 ==> JoinOr(cuts + [cut]) == "(" + cut + ")"
    ensures |cuts| > 0 ==> JoinOr(cuts + [cut]) == JoinOr(cuts) + " or (" + cut + ")"
  {
    assert (cuts + [cut])[..|cuts|] == cuts;
  }

  /** Each plot of a source contributes its cut text to the source's list. */
  lemma {:induction false} CutsOfHas(plots: seq<PlotSource>, i: nat)
    requires i < |plots| && Given(plots[i].key)
    ensures Show(plots[i].cut) in CutsOf(plots, plots[i].key.value)
    decreases |plots|
  {
    var s := plots[i].key.value;
    if i < |plots| - 1 {
      assert plots[..|plots| - 1][i] == plots[i];
      CutsOfHas(plots[..|plots| - 1], i);
    }
  }

  /** Each cut appears in the joined text in its own parentheses. */
  lemma {:induction false} JoinOrHas(cuts: seq<string>, k: nat)
    requires k < |cuts|
    ensures Contains(JoinOr(cuts), "(" + cuts[k] + ")")
    decreases |cuts|
  {
    var piece := "(" + cuts[k] + ")";
    if k == |cuts| - 1 {
      if |cuts| == 1 {
        ContainsAt(JoinOr(cuts), piece, 0);
      } else {
        var head := JoinOr(cuts[..|cuts| - 1]);
        var whole := head + " or (" + cuts[k] + ")";
        assert whole[|head| + 4..|head| + 4 + |piece|] == piece;
        ContainsAt(whole, piece, |head| + 4);
      }
    } else {
      var head := JoinOr(cuts[..|cuts| - 1]);
      assert cuts[..|cuts| - 1][k] == cuts[k];
      JoinOrHas(cuts[..|cuts| - 1], k);
      ContainsPrefix(head, JoinOr(cuts), piece);
    }
  }

  /** What a string contains, its extensions contain. */
  lemma {:induction false} ContainsPrefix(a: string, b: string, sub: string)
    requires Contains(a, sub) && |a| <= |b| && b[..|a|] == a
    ensures Contains(b, sub)
    decreases |a|
  {
    if a[..|sub|] != sub {
      assert b[1..][..|a[1..]|] == a[1..];
      ContainsPrefix(a[1..], b[1..], sub);
    } else {
      assert b[..|sub|] == a[..|sub|];
    }
  }

  /** A plot without a cut drops the cut filter of its whole source. */
  lemma {:induction false} MissingCutDropsFilter(plots: seq<PlotSource>, i: nat)
    requires i < |plots| && Given(plots[i].key) && plots[i].cut.None?
    ensures var cuts := CutsOf(plots, plots[i].key.value);
      |cuts| > 0 && Contains(JoinOr(cuts), "(None)")
  {
    var cuts := CutsOf(plots, plots[i].key.value);
    CutsOfHas(plots, i);
    var k :| 0 <= k < |cuts| && cuts[k] == "None";
    JoinOrHas(cuts, k);
    assert "(" + cuts[k] + ")" == "(None)";
  }

  // ----- the averaged-source key -----

  /** POSIX `os.path.join(a, b)`. */
  function PathJoin(a: string, b: string): string
  {
    if |b| > 0 && b[0] == '/' then b
    else if |a| == 0 || a[|a| - 1] == '/' then a + b
    else a + "/" + b
  }

  /** The key of a plot's source with its rate-averaging settings: `path:table:window:shift:weight`
    * (the source setting is `file:table`), or none when the plot has no source. */
  function SourceKey(datadir: string, s: Setting, rw: Setting, rs: Setting, rc: Setting): Setting
  {
    if Given(s) then Some(PathJoin(datadir, s.value) + ":" + Show(rw) + ":" + Show(rs) + ":" + Show(rc)) else None
  }

  /** What `_get_data` reads from a key: file, table node, averaging window (none: no averaging),
    * shift (1 by default) and weight column (none: unweighted). */
  datatype Source = Source(file: string, table: string, window: Option<real>, shift: real, weight: Option<string>)

  datatype KeyError = MissingField | BadWindow | BadShift

  /**
   * Reading the fields of a split key in the order `_get_data` reads them. `evalReal` stands for
   * `float(eval(text))` and `toFloat` for `float(text)`; `None` is a raised exception. A missing
   * field is an `IndexError`; extra fields are ignored.
   */
  function FromFields(ss: seq<string>, evalReal: string -> Option<real>, toFloat: string -> Option<real>)
    : (r: Result<Source, KeyError>)
    ensures |ss| < 5 ==> r.Err?
    ensures r.Ok? ==> && r.value.file == ss[0] && r.value.table == ss[1]
                      && (r.value.window.None? <==> ss[2] == "None")
                      && (r.value.window.Some? ==> evalReal(ss[2]) == r.value.window)
                      && (ss[3] == "None" ==> r.value.shift == 1.0)
                      && (ss[3] != "None" ==> toFloat(ss[3]) == Some(r.value.shift))
                      && (r.value.weight.None? <==> ss[4] == "None")
                      && (r.value.weight.Some? ==> r.value.weight.value == ss[4])
    ensures r.Err? && |ss| >= 5 ==> (ss[2] != "None" && evalReal(ss[2]).None?) || (ss[3] != "None" && toFloat(ss[3]).None?)
  {
    if |ss| < 3 then Err(MissingField)
    else if ss[2] != "None" && evalReal(ss[2]).None? then Err(BadWindow)
    else if |ss| < 4 then Err(MissingField)
    else if ss[3] != "None" && toFloat(ss[3]).None? then Err(BadShift)
    else if |ss| < 5 then Err(MissingField)
    else
      Ok(Source(ss[0], ss[1],
                if ss[2] == "None" then None else evalReal(ss[2]),
                if ss[3] == "None" then 1.0 else toFloat(ss[3]).value,
                if ss[4] == "None" then None else Some(ss[4])))
  }

  /** `s.strip().split(':')` and the reading of its fields. */
  function ParseKey(key: string, evalReal: string -> Option<real>, toFloat: string -> Option<real>): Result<Source, KeyError>
  {
    FromFields(Split(Strip(key), ':'), evalReal, toFloat)
  }

  /** Joining a directory to `file:table` joins it to the file part. */
  lemma {:induction false} PathJoinSource(datadir: string, file: string, table: string)
    ensures PathJoin(datadir, file + ":" + table) == PathJoin(datadir, file) + ":" + table
  {
    if |file| > 0 {
      assert (file + ":" + table)[0] == file[0];
    }
  }

  /** A joined path holds a colon only if the directory or the file does. */
  lemma {:induction false} PathJoinNoColon(datadir: string, file: string)
    requires ':' !in datadir && ':' !in file
    ensures ':' !in PathJoin(datadir, file)
  {
  }

  /**
   * The key splits back into its five fields when none of its parts holds a colon and it has no
   * surrounding whitespace to strip, so reading the key reads the settings that made it.
   */
  lemma {:induction false} SourceKeyRoundTrip(datadir: string, file: string, table: string, rw: Setting, rs: Setting,
                                              rc: Setting, evalReal: string -> Option<real>, toFloat: string -> Option<real>)
    requires ':' !in datadir && ':' !in file && ':' !in table
    requires ':' !in Show(rw) && ':' !in Show(rs) && ':' !in Show(rc)
    requires var path := PathJoin(datadir, file);
      (|path| > 0 ==> !IsSpace(path[0])) && (|Show(rc)| > 0 ==> !IsSpace(Show(rc)[|Show(rc)| - 1]))
    ensures var key := SourceKey(datadir, Some(file + ":" + table), rw, rs, rc);
      && key.Some?
      && Split(Strip(key.value), ':') == [PathJoin(datadir, file), table, Show(rw), Show(rs), Show(rc)]
      && ParseKey(key.value, evalReal, toFloat)
         == FromFields([PathJoin(datadir, file), table, Show(rw), Show(rs), Show(rc)], evalReal, toFloat)
  {
    var path := PathJoin(datadir, file);
    PathJoinSource(datadir, file, table);
    PathJoinNoColon(datadir, file);
    var key := path + ":" + table + ":" + Show(rw) + ":" + Show(rs) + ":" + Show(rc);
    assert SourceKey(datadir, Some(file + ":" + table), rw, rs, rc) == Some(key);
    KeySplits(path, table, Show(rw), Show(rs), Show(rc));
    assert ParseKey(key, evalReal, toFloat) == FromFields(Split(Strip(key), ':'), evalReal, toFloat);
  }

  /** Five colon-free fields joined with colons, with no whitespace at either end, split back. */
  lemma {:induction false} KeySplits(path: string, table: string, w: string, s: string, c: string)
    requires ':' !in path && ':' !in table && ':' !in w && ':' !in s && ':' !in c
    requires (|path| > 0 ==> !IsSpace(path[0])) && (|c| > 0 ==> !IsSpace(c[|c| - 1]))
    ensures Split(Strip(path + ":" + table + ":" + w + ":" + s + ":" + c), ':') == [path, table, w, s, c]
  {
    var parts := [path, table, w, s, c];
    KeyIsJoin(path, table, w, s, c);
    forall i | 0 <= i < |parts|
      ensures ':' !in parts[i]
    {
    }
    SplitJoin(parts, ':');
    KeyUnstripped(path, table, w, s, c);
  }

  /** The key is its five fields joined with colons. */
  lemma {:induction false} KeyIsJoin(path: string, table: string, w: string, s: string, c: string)
    ensures Join([path, table, w, s, c], ':') == path + ":" + table + ":" + w + ":" + s + ":" + c
  {
    var p4 := [c];
    var p3 := [s] + p4;
    var p2 := [w] + p3;
    var p1 := [table] + p2;
    JoinCons(s, p4, ':');
    JoinCons(w, p3, ':');
    JoinCons(table, p2, ':');
    JoinCons(path, p1, ':');
    assert [path, table, w, s, c] == [path] + p1;
  }

  /** A key that starts and ends with no whitespace is left as it is by `strip`. */
  lemma {:induction false} KeyUnstripped(path: string, table: string, w: string, s: string, c: string)
    requires (|path| > 0 ==> !IsSpace(path[0])) && (|c| > 0 ==> !IsSpace(c[|c| - 1]))
    ensures var key := path + ":" + table + ":" + w + ":" + s + ":" + c; Strip(key) == key
  {
    var key := path + ":" + table + ":" + w + ":" + s + ":" + c;
    assert key[0] == (if |path| > 0 then path[0] else ':');
    assert key[|key| - 1] == (if |c| > 0 then c[|c| - 1] else ':');
    StripTrimmed(key);
  }

  // ----- bins -----

  /** `float` of every part, or none when some part is not a number. */
  function ParseAll(parts: seq<string>, toFloat: string -> Option<real>): (r: Option<seq<real>>)
    ensures r.Some? <==> forall i :: 0 <= i < |parts| ==> toFloat(parts[i]).Some?
    ensures r.Some? ==> |r.value| == |parts| && forall i :: 0 <= i < |parts| ==> toFloat(parts[i]) == Some(r.value[i])
  {
    if |parts| == 0 then Some([])
    else match (toFloat(parts[0]), ParseAll(parts[1..], toFloat))
      case (Some(v), Some(vs)) => Some([v] + vs)
      case _ => None
  }

  /** `bins`: one number is a bin count, several comma-separated numbers are edges, and an absent,
    * empty or non-numeric setting is 0. */
  function ParseBins(b: Setting, toFloat: string -> Option<real>): (r: Binning.BinSpec)
    ensures !Given(b) ==> r == Binning.Count(0.0)
    ensures Given(b) && (exists i :: 0 <= i < |Split(b.value, ',')| && toFloat(Split(b.value, ',')[i]).None?)
            ==> r == Binning.Count(0.0)
    ensures r.Values? ==> Given(b) && |r.values| == |Split(b.value, ',')| >= 2
  {
    if !Given(b) then Binning.Count(0.0)
    else
      var parts := Split(b.value, ',');
      if |parts| == 1 then
        (match toFloat(parts[0]) case Some(v) => Binning.Count(v) case None => Binning.Count(0.0))
      else
        (match ParseAll(parts, toFloat) case Some(vs) => Binning.Values(vs) case None => Binning.Count(0.0))
  }

  /** Numbers written comma-separated are read back: one as a count, several as edges. */
  lemma {:induction false} BinsRoundTrip(texts: seq<string>, vs: seq<real>, toFloat: string -> Option<real>)
    requires |texts| == |vs| >= 1
    requires forall i :: 0 <= i < |texts| ==> ',' !in texts[i] && toFloat(texts[i]) == Some(vs[i])
    requires |texts[0]| > 0
    ensures ParseBins(Some(Join(texts, ',')), toFloat) == if |texts| == 1 then Binning.Count(vs[0]) else Binning.Values(vs)
  {
    SplitJoin(texts, ',');
    assert |Join(texts, ',')| > 0 by {
      JoinStartsWithFirst(texts, ',');
    }
    if |texts| > 1 {
      var vs' := ParseAll(texts, toFloat).value;
      assert vs' == vs by {
        forall i | 0 <= i < |texts|
          ensures vs'[i] == vs[i]
        {
          assert toFloat(texts[i]) == Some(vs'[i]);
        }
      }
    }
  }

  /** Joining a part in front of at least one more. */
  lemma {:induction false} JoinCons(p: string, rest: seq<string>, sep: char)
    requires |rest| >= 1
    ensures Join([p] + rest, sep) == p + [sep] + Join(rest, sep)
  {
    assert ([p] + rest)[1..] == rest;
  }

  /** A join starts with its first part. */
  lemma {:induction false} JoinStartsWithFirst(parts: seq<string>, sep: char)
    requires |parts| >= 1
    ensures |Join(parts, sep)| >= |parts[0]| && Join(parts, sep)[..|parts[0]|] == parts[0]
  {
  }

  // ----- llabel -----

  /** `':' + w` for every expression given, in order. */
  function LabelTail(exprs: seq<Setting>): string
  {
    if |exprs| == 0 then "" else (if Given(exprs[0]) then ":" + exprs[0].value else "") + LabelTail(exprs[1..])
  }

  /** `llabel`: the plot's name if it has one, otherwise its x, y, z and cut expressions joined
    * with colons (the leading colon dropped). */
  function Llabel(name: Setting, exprs: seq<Setting>): string
  {
    if Given(name) then name.value
    else
      var l := LabelTail(exprs);
      if |l| == 0 then "" else l[1..]
  }

  /** The expressions that are given, in order. */
  function Present(exprs: seq<Setting>): (r: seq<string>)
    ensures forall i :: 0 <= i < |r| ==> |r[i]| > 0
  {
    if |exprs| == 0 then [] else (if Given(exprs[0]) then [exprs[0].value] else []) + Present(exprs[1..])
  }

  /** The label tail is the given expressions, each behind a colon. */
  lemma {:induction false} LabelTailJoins(exprs: seq<Setting>)
    ensures LabelTail(exprs) == if |Present(exprs)| == 0 then "" else ":" + Join(Present(exprs), ':')
  {
    if |exprs| > 0 {
      LabelTailJoins(exprs[1..]);
      var rest := Present(exprs[1..]);
      var tail := LabelTail(exprs[1..]);
      if Given(exprs[0]) {
        var e := exprs[0].value;
        assert LabelTail(exprs) == (":" + e) + tail;
        assert Present(exprs) == [e] + rest;
        if |rest| > 0 {
          JoinCons(e, rest, ':');
          ColonJoin(e, Join(rest, ':'));
        } else {
          assert (":" + e) + tail == ":" + e;
        }
      } else {
        assert LabelTail(exprs) == "" + tail;
        assert "" + tail == tail;
        assert Present(exprs) == [] + rest;
        assert [] + rest == rest;
      }
    }
  }

  lemma {:induction false} ColonJoin(e: string, j: string)
    ensures (":" + e) + (":" + j) == ":" + (e + [':'] + j)
  {
  }

  /** Without a name the label is the given expressions joined by `:`. */
  lemma {:induction false} LlabelJoins(name: Setting, exprs: seq<Setting>)
    ensures Llabel(name, exprs) == if Given(name) then name.value else Join(Present(exprs), ':')
  {
    LabelTailJoins(exprs);
    if !Given(name) && |Present(exprs)| > 0 {
      assert (":" + Join(Present(exprs), ':'))[1..] == Join(Present(exprs), ':');
    }
  }

  /** Without a name and with colon-free expressions, splitting the label at `:` gives back the
    * given expressions. */
  lemma {:induction false} LlabelSplits(name: Setting, exprs: seq<Setting>)
    requires !Given(name) && |Present(exprs)| > 0
    requires forall i :: 0 <= i < |Present(exprs)| ==> ':' !in Present(exprs)[i]
    ensures Split(Llabel(name, exprs), ':') == Present(exprs)
  {
    LlabelJoins(name, exprs);
    SplitJoin(Present(exprs), ':');
  }

  // ----- data and prefilter -----

  /** The x, y and z data of one plot as `data` returns them. */
  datatype Columns = Columns(x: Option<seq<real>>, y: Option<seq<real>>, z: Option<seq<real>>)

  /** An adjustment expression's data replaces the plain one. */
  function Adjusted(a: Option<seq<real>>, adj: Option<seq<real>>): Option<seq<real>>
  {
    if adj.Some? then adj else a
  }

  /** numpy boolean indexing needs a mask as long as the column. */
  predicate Fits(a: Option<seq<real>>, mask: seq<bool>)
  {
    a.Some? ==> |a.value| == |mask|
  }

  function Masked(a: Option<seq<real>>, mask: seq<bool>): Option<seq<real>>
    requires Fits(a, mask)
  {
    if a.Some? then Some(Select(a.value, mask)) else None
  }

  /** Whether `data` applies the cut: the cut's data is present and not empty. */
  predicate Cutting(c: Option<seq<bool>>)
  {
    c.Some? && |c.value| > 0
  }

  /** `data`: adjusted data where given, then the rows where the cut holds. */
  function Data(x: Option<seq<real>>, y: Option<seq<real>>, z: Option<seq<real>>, c: Option<seq<bool>>,
                xa: Option<seq<real>>, ya: Option<seq<real>>, za: Option<seq<real>>): (r: Columns)
    requires Cutting(c) ==> Fits(Adjusted(x, xa), c.value) && Fits(Adjusted(y, ya), c.value) && Fits(Adjusted(z, za), c.value)
    ensures !Cutting(c) ==> r == Columns(Adjusted(x, xa), Adjusted(y, ya), Adjusted(z, za))
    ensures r.x.Some? <==> Adjusted(x, xa).Some?
    ensures r.y.Some? <==> Adjusted(y, ya).Some?
    ensures r.z.Some? <==> Adjusted(z, za).Some?
  {
    var x', y', z' := Adjusted(x, xa), Adjusted(y, ya), Adjusted(z, za);
    if Cutting(c) then Columns(Masked(x', c.value), Masked(y', c.value), Masked(z', c.value))
    else Columns(x', y', z')
  }

  /** Under a cut every column keeps as many values as the cut has true entries, and x and y stay
    * paired row by row: the kept pairs are the pairs of the kept rows, adjusted data included. */
  lemma {:induction false} DataKeepsRowsPaired(x: Option<seq<real>>, y: Option<seq<real>>, z: Option<seq<real>>, c: seq<bool>,
                                               xa: Option<seq<real>>, ya: Option<seq<real>>, za: Option<seq<real>>)
    requires Adjusted(x, xa).Some? && Adjusted(y, ya).Some? && |c| > 0
    requires |Adjusted(x, xa).value| == |Adjusted(y, ya).value| == |c| && Fits(Adjusted(z, za), c)
    ensures var r := Data(x, y, z, Some(c), xa, ya, za);
      && r.x.Some? && r.y.Some?
      && |r.x.value| == |r.y.value| == CountTrue(c)
      && (r.z.Some? ==> |r.z.value| == CountTrue(c))
      && Zip(r.x.value, r.y.value) == Select(Zip(Adjusted(x, xa).value, Adjusted(y, ya).value), c)
  {
    var x', y' := Adjusted(x, xa).value, Adjusted(y, ya).value;
    SelectLength(x', c);
    if Adjusted(z, za).Some? {
      SelectLength(Adjusted(z, za).value, c);
    }
    SelectZip(x', y', c);
  }

  /** `prefilter`: the rows for which the compiled cut holds, in table order. `cut` stands for
    * the evaluated lambda. */
  method Prefilter<T>(rows: seq<T>, cut: T -> bool) returns (kept: seq<T>)
    ensures kept == Filter(rows, cut)
  {
    kept := [];
    for i := 0 to |rows|
      invariant kept == Filter(rows[..i], cut)
    {
      FilterSnoc(rows, i, cut);
      if cut(rows[i]) {
        kept := kept + [rows[i]];
      }
    }
    assert rows[..|rows|] == rows;
  }
}
