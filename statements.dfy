/** Parameterised SQL statements as the controller hands them to JDBC: the SQL
    text with its `?` placeholders, and the values bound to the 1-based
    parameter slots by `setLong` / `setString`.  The module also says what it
    means for the two to agree: every placeholder has exactly one bound slot,
    and the k-th placeholder sits right after the column (and comparison) whose
    value the k-th slot holds. */
module Statements {

  datatype Option<+T> = None | Some(value: T)

  /** Java's `long`, the type `setLong` and `getLong` work with. */
  type Long = x: int | -0x8000_0000_0000_0000 <= x < 0x8000_0000_0000_0000

  /** A value bound to a parameter slot, or stored in a result map:
      a `long`, a string, or SQL NULL / Java null. */
  datatype Value = LongVal(n: Long) | StringVal(s: string) | NullVal

  /** `setString(i, s)` / `getString(c)` where the Java string may be null. */
  function StringOrNull(s: Option<string>): Value
  {
    match s
    case None => NullVal
    case Some(v) => StringVal(v)
  }

  /** A prepared statement: SQL text and the parameter slots bound so far. */
  datatype Statement = Statement(sql: string, params: map<nat, Value>)

  /** The positions of the `?` markers in the SQL text, left to right. */
  function Placeholders(sql: string): seq<nat>
  {
    if sql == [] then []
    else Placeholders(sql[..|sql| - 1]) + (if sql[|sql| - 1] == '?' then [|sql| - 1] else [])
  }

  /** Every listed position lies in the text and holds a `?`. */
  lemma {:induction false} PlaceholdersSound(sql: string)
    ensures forall k | 0 <= k < |Placeholders(sql)| ::
      Placeholders(sql)[k] < |sql| && sql[Placeholders(sql)[k]] == '?'
  {
    if sql != [] {
      var init := sql[..|sql| - 1];
      PlaceholdersSound(init);
      var ps := Placeholders(init);
      assert forall k | 0 <= k < |ps| :: init[ps[k]] == sql[ps[k]];
    }
  }

  /** The positions are listed left to right. */
  lemma {:induction false} PlaceholdersIncreasing(sql: string, j: nat, k: nat)
    requires j < k < |Placeholders(sql)|
    ensures Placeholders(sql)[j] < Placeholders(sql)[k]
  {
    var init := sql[..|sql| - 1];
    var ps := Placeholders(init);
    if k < |ps| {
      PlaceholdersIncreasing(init, j, k);
    } else {
      PlaceholdersSound(init);
      assert Placeholders(sql)[j] == ps[j] < |init|;
    }
  }

  /** Every `?` of the text is listed. */
  lemma {:induction false} PlaceholdersComplete(sql: string, i: nat)
    requires i < |sql| && sql[i] == '?'
    ensures i in Placeholders(sql)
  {
    if i < |sql| - 1 {
      var init := sql[..|sql| - 1];
      assert init[i] == sql[i];
      PlaceholdersComplete(init, i);
    }
  }

  /** The number of `?` markers in the SQL text. */
  function CountPlaceholders(sql: string): nat
  {
    |Placeholders(sql)|
  }

  /** The count is the number of occurrences of `?` in the text. */
  lemma {:induction false} CountIsOccurrences(sql: string)
    ensures CountPlaceholders(sql) == multiset(sql)['?']
  {
    if sql != [] {
      var init := sql[..|sql| - 1];
      assert sql == init + [sql[|sql| - 1]];
      assert multiset(sql) == multiset(init) + multiset{sql[|sql| - 1]};
      CountIsOccurrences(init);
    }
  }

  /** Appending text without a `?` adds no placeholder. */
  lemma {:induction false} PlaceholdersPlain(s: string, t: string)
    requires '?' !in t
    ensures Placeholders(s + t) == Placeholders(s)
  {
    if t == [] {
      assert s + t == s;
    } else {
      var init := t[..|t| - 1];
      assert (s + t)[..|s + t| - 1] == s + init;
      assert (s + t)[|s + t| - 1] == t[|t| - 1];
      assert forall c | c in init :: c in t;
      PlaceholdersPlain(s, init);
    }
  }

  /** Appending one character adds a placeholder exactly when it is a `?`. */
  lemma PlaceholdersSnoc(s: string, c: char)
    ensures Placeholders(s + [c]) == Placeholders(s) + (if c == '?' then [|s|] else [])
  {
    assert (s + [c])[..|s|] == s;
  }

  /** Appending `m + "?"`, where `m` holds no `?`, adds exactly one placeholder, at the end. */
  lemma PlaceholdersClause(s: string, m: string)
    requires '?' !in m
    ensures Placeholders(s + (m + "?")) == Placeholders(s) + [|s + m|]
  {
    var t, u := s + (m + "?"), s + m;
    assert t == u + ['?'];
    PlaceholdersSnoc(u, '?');
    PlaceholdersPlain(s, m);
  }

  /** JDBC's binding rule: the bound slots are exactly 1 .. number of placeholders.
      Setting a slot beyond the last placeholder throws, and executing with an
      unset slot throws. */
  predicate WellBound(stmt: Statement)
  {
    && (forall i | i in stmt.params :: 1 <= i <= CountPlaceholders(stmt.sql))
    && (forall i: nat | 1 <= i <= CountPlaceholders(stmt.sql) :: i in stmt.params)
  }

  /** The columns the controller filters or assigns, in the order it handles them. */
  datatype Column = Id | Name | Email

  function Rank(c: Column): nat
  {
    match c
    case Id => 0
    case Name => 1
    case Email => 2
  }

  function ColumnName(c: Column): string
  {
    match c
    case Id => "id"
    case Name => "name"
    case Email => "email"
  }

  /** `=` (exact match or assignment) or `LIKE` (pattern match). */
  datatype Op = Eq | Like

  function OpText(op: Op): string
  {
    match op
    case Eq => " = "
    case Like => " LIKE "
  }

  /** One placeholder as the builder means it: the column and comparison written
      in front of the `?`, and the value that goes into its slot. */
  datatype Param = Param(column: Column, op: Op, value: Value)

  /** The text written in front of a parameter's `?`, e.g. `name LIKE `. */
  function Marker(p: Param): string
  {
    ColumnName(p.column) + OpText(p.op)
  }

  predicate EndsWith(s: string, t: string)
  {
    |t| <= |s| && s[|s| - |t|..] == t
  }

  predicate StartsWith(s: string, t: string)
  {
    |t| <= |s| && s[..|t|] == t
  }

  /** The fragment the builder appends for one parameter: `sep`, the marker, `?`. */
  function Fragment(sep: string, p: Param): string
  {
    sep + Marker(p) + "?"
  }

  /** `head` followed by one fragment per parameter, in order. */
  function WithClauses(head: string, sep: string, plan: seq<Param>): string
  {
    if plan == [] then head
    else WithClauses(head, sep, plan[..|plan| - 1]) + Fragment(sep, plan[|plan| - 1])
  }

  /** Appending the next fragment is what one more parameter in the plan means. */
  lemma WithClausesSnoc(head: string, sep: string, plan: seq<Param>, p: Param)
    ensures WithClauses(head, sep, plan + [p]) == WithClauses(head, sep, plan) + Fragment(sep, p)
  {
    assert (plan + [p])[..|plan|] == plan;
  }

  /** Fragments only ever extend the text: it still starts with `head`. */
  lemma {:induction false} ClausesExtendHead(head: string, sep: string, plan: seq<Param>)
    ensures StartsWith(WithClauses(head, sep, plan), head)
    decreases |plan|
  {
    if plan != [] {
      var init := plan[..|plan| - 1];
      var before := WithClauses(head, sep, init);
      ClausesExtendHead(head, sep, init);
      assert (before + Fragment(sep, plan[|plan| - 1]))[..|head|] == before[..|head|];
    }
  }

  /** The slot map `setX(1, v1); setX(2, v2); ...` produces for a plan:
      slot i holds the value of the i-th parameter. */
  function Slots(plan: seq<Param>): map<nat, Value>
  {
    SlotsUpTo(plan, |plan|)
  }

  /** The slots bound after the first `n` calls. */
  function SlotsUpTo(plan: seq<Param>, n: nat): map<nat, Value>
    requires n <= |plan|
  {
    if n == 0 then map[] else SlotsUpTo(plan, n - 1)[n := plan[n - 1].value]
  }

  /** Slot i is bound exactly when 1 <= i <= n, and holds the i-th value. */
  lemma {:induction false} SlotsUpToFacts(plan: seq<Param>, n: nat)
    requires n <= |plan|
    ensures forall i: nat :: i in SlotsUpTo(plan, n) <==> 1 <= i <= n
    ensures forall i | i in SlotsUpTo(plan, n) :: SlotsUpTo(plan, n)[i] == plan[i - 1].value
  {
    if n > 0 {
      SlotsUpToFacts(plan, n - 1);
    }
  }

  lemma SlotsFacts(plan: seq<Param>)
    ensures forall i: nat :: i in Slots(plan) <==> 1 <= i <= |plan|
    ensures forall i | i in Slots(plan) :: Slots(plan)[i] == plan[i - 1].value
  {
    SlotsUpToFacts(plan, |plan|);
  }

  /** The first calls do not depend on the parameters that come later. */
  lemma {:induction false} SlotsUpToPrefix(plan: seq<Param>, p: Param, n: nat)
    requires n <= |plan|
    ensures SlotsUpTo(plan + [p], n) == SlotsUpTo(plan, n)
  {
    if n > 0 {
      SlotsUpToPrefix(plan, p, n - 1);
      assert (plan + [p])[n - 1] == plan[n - 1];
    }
  }

  /** Binding one more parameter fills the next slot. */
  lemma SlotsSnoc(plan: seq<Param>, p: Param)
    ensures Slots(plan + [p]) == Slots(plan)[|plan| + 1 := p.value]
  {
    SlotsUpToPrefix(plan, p, |plan|);
  }

  /** SQL text and plan agree: one placeholder per parameter, and in front of the
      k-th placeholder stands the marker of the k-th parameter. */
  predicate BindsAgree(sql: string, plan: seq<Param>)
  {
    var ps := Placeholders(sql);
    && |ps| == |plan|
    && forall k | 0 <= k < |plan| :: ps[k] <= |sql| && EndsWith(sql[..ps[k]], Marker(plan[k]))
  }

  lemma PlainAgrees(s: string)
    requires '?' !in s
    ensures BindsAgree(s, [])
  {
    PlaceholdersPlain([], s);
    assert [] + s == s;
  }

  /** A marker holds no `?`. */
  lemma MarkerPlain(p: Param)
    ensures '?' !in Marker(p)
  {
  }

  lemma EndsWithAfter(a: string, m: string, w: string)
    requires EndsWith(m, w)
    ensures EndsWith(a + m, w)
  {
    assert (a + m)[|a + m| - |w|..] == m[|m| - |w|..];
  }

  /** Appending `m + "?"`, where `m` holds no `?` and ends with the marker of `p`,
      extends the agreement by `p`. */
  lemma AgreeExtend(sql: string, plan: seq<Param>, m: string, p: Param)
    requires BindsAgree(sql, plan)
    requires '?' !in m
    requires EndsWith(m, Marker(p))
    ensures BindsAgree(sql + (m + "?"), plan + [p])
  {
    var t, plan' := sql + (m + "?"), plan + [p];
    PlaceholdersClause(sql, m);
    var ps, qs := Placeholders(sql), Placeholders(t);
    assert |qs| == |plan'|;
    forall k | 0 <= k < |plan| ensures qs[k] <= |t| && EndsWith(t[..qs[k]], Marker(plan'[k])) {
      assert t[..qs[k]] == sql[..ps[k]];
      assert plan'[k] == plan[k];
    }
    assert t[..qs[|plan|]] == sql + m;
    EndsWithAfter(sql, m, Marker(p));
    assert plan'[|plan|] == p;
  }

  /** Appending one fragment extends the agreement by that parameter. */
  lemma AgreeSnoc(sql: string, plan: seq<Param>, sep: string, p: Param)
    requires BindsAgree(sql, plan)
    requires '?' !in sep
    ensures BindsAgree(sql + Fragment(sep, p), plan + [p])
  {
    MarkerPlain(p);
    var w := Marker(p);
    var m := sep + w;
    assert '?' !in m;
    assert EndsWith(w, w) by { assert w[|w| - |w|..] == w; }
    EndsWithAfter(sep, w, w);
    AgreeExtend(sql, plan, m, p);
  }

  /** The agreement extends over any run of fragments sharing one separator. */
  lemma {:induction false} ClausesAgree(head: string, pre: seq<Param>, sep: string, plan: seq<Param>)
    requires BindsAgree(head, pre)
    requires '?' !in sep
    ensures BindsAgree(WithClauses(head, sep, plan), pre + plan)
    decreases |plan|
  {
    if plan == [] {
      assert pre + plan == pre;
    } else {
      var init, last := plan[..|plan| - 1], plan[|plan| - 1];
      ClausesAgree(head, pre, sep, init);
      AgreeSnoc(WithClauses(head, sep, init), pre + init, sep, last);
      assert plan == init + [last];
      assert pre + (init + [last]) == (pre + init) + [last];
    }
  }

  /** A statement whose slots come from a plan that agrees with its SQL is well bound. */
  lemma AgreeWellBound(sql: string, plan: seq<Param>)
    requires BindsAgree(sql, plan)
    ensures CountPlaceholders(sql) == |plan|
    ensures WellBound(Statement(sql, Slots(plan)))
  {
    SlotsFacts(plan);
  }

  /** A `?`-free head followed by one fragment per parameter of a plan, with the
      plan's values in the slots, is a statement whose text and slots agree. */
  lemma ClausesStatement(head: string, sep: string, plan: seq<Param>)
    requires '?' !in head && '?' !in sep
    ensures var sql := WithClauses(head, sep, plan);
      && StartsWith(sql, head)
      && BindsAgree(sql, plan)
      && CountPlaceholders(sql) == |plan|
      && WellBound(Statement(sql, Slots(plan)))
  {
    var sql := WithClauses(head, sep, plan);
    PlainAgrees(head);
    ClausesAgree(head, [], sep, plan);
    assert [] + plan == plan;
    AgreeWellBound(sql, plan);
    ClausesExtendHead(head, sep, plan);
  }

  /** The case of a single parameter. */
  lemma OneClauseStatement(head: string, sep: string, p: Param)
    requires '?' !in head && '?' !in sep
    ensures var sql := head + Fragment(sep, p);
      && BindsAgree(sql, [p])
      && WellBound(Statement(sql, map[1 := p.value]))
  {
    ClausesStatement(head, sep, [p]);
    assert [p][..0] == [];
    assert Slots([p]) == map[1 := p.value];
  }

  /** The SQL text a run of fragments produces depends only on the markers, never
      on the bound values. */
  lemma {:induction false} ClausesIgnoreValues(head: string, sep: string, plan: seq<Param>, plan': seq<Param>)
    requires |plan| == |plan'|
    requires forall k | 0 <= k < |plan| :: Marker(plan[k]) == Marker(plan'[k])
    ensures WithClauses(head, sep, plan) == WithClauses(head, sep, plan')
    decreases |plan|
  {
    if plan != [] {
      ClausesIgnoreValues(head, sep, plan[..|plan| - 1], plan'[..|plan'| - 1]);
    }
  }
}
