/** Parameterised SQL statements as the ingestion modules build them: the
    statement text is a sequence of literal fragments and `?` placeholders,
    and the bind list is the ordered sequence of values sqlx attaches with
    `.bind(..)`. A statement is well-formed when the two have equal arity. */
module Sql {
  import opened Common

  /** An `f64` kept as its IEEE-754 bit pattern; the model never does
      floating-point arithmetic on it. */
  datatype F64 = F64(bits: bv64)

  datatype Frag = Text(text: string) | Param

  datatype Bind = Int(i: int) | Str(s: string) | Float(f: F64)

  datatype Statement = Statement(sql: seq<Frag>, binds: seq<Bind>)

  /** The number of `?` placeholders in a statement text */
  function Holes(sql: seq<Frag>): nat
    decreases |sql|
  {
    if |sql| == 0 then 0 else (if sql[0].Param? then 1 else 0) + Holes(sql[1..])
  }

  lemma {:induction false} HolesAppend(a: seq<Frag>, b: seq<Frag>)
    ensures Holes(a + b) == Holes(a) + Holes(b)
    decreases |a|
  {
    if |a| == 0 {
      assert a + b == b;
    } else {
      assert (a + b)[0] == a[0];
      assert (a + b)[1..] == a[1..] + b;
      HolesAppend(a[1..], b);
    }
  }

  /** A literal text followed by one placeholder */
  function Clause(text: string): (sql: seq<Frag>)
    ensures Holes(sql) == 1
  {
    assert Holes([Param]) == 1;
    [Text(text), Param]
  }

  /** Every placeholder has exactly one bound value */
  predicate WellFormed(st: Statement) {
    Holes(st.sql) == |st.binds|
  }

  /** `vec![group; n].join(sep)` */
  function Repeat(group: seq<Frag>, sep: seq<Frag>, n: nat): (r: seq<Frag>)
    ensures n == 0 ==> r == []
    decreases n
  {
    if n == 0 then []
    else if n == 1 then group
    else Repeat(group, sep, n - 1) + sep + group
  }

  lemma {:induction false} RepeatHoles(group: seq<Frag>, sep: seq<Frag>, n: nat)
    requires n > 0
    ensures Holes(Repeat(group, sep, n)) == n * Holes(group) + (n - 1) * Holes(sep)
    decreases n
  {
    if n > 1 {
      var prev := Repeat(group, sep, n - 1);
      RepeatHoles(group, sep, n - 1);
      HolesAppend(prev + sep, group);
      HolesAppend(prev, sep);
      var g, s := Holes(group), Holes(sep);
      calc {
        Holes(Repeat(group, sep, n));
        Holes(prev) + s + g;
        (n - 1) * g + (n - 2) * s + s + g;
        { assert (n - 1) * g + g == n * g; assert (n - 2) * s + s == (n - 1) * s; }
        n * g + (n - 1) * s;
      }
    }
  }

  /** `"?,?,...,?"` with `n` placeholders: the body of an `IN (...)` list */
  function InList(n: nat): (r: seq<Frag>)
    ensures Holes(r) == n
  {
    if n == 0 then [] else RepeatHoles([Param], [Text(",")], n); Repeat([Param], [Text(",")], n)
  }

  /** `(?,...,?)` with `width` placeholders: one row of a VALUES list */
  function Tuple(width: nat): (g: seq<Frag>)
    ensures Holes(g) == width
  {
    HolesAppend([Text("(")], InList(width));
    HolesAppend([Text("(")] + InList(width), [Text(")")]);
    [Text("(")] + InList(width) + [Text(")")]
  }

  /** `vec!["(?,...,?)"; n].join(sep)`: the VALUES list of an `n`-row
      insert of `width` columns */
  function ValuesRows(width: nat, n: nat, sep: string): (sql: seq<Frag>)
    ensures Holes(sql) == width * n
  {
    var group, between := Tuple(width), [Text(sep)];
    if n == 0 then []
    else
      RepeatHoles(group, between, n);
      assert Holes(between) == 0;
      assert Holes(Repeat(group, between, n)) == n * width + (n - 1) * 0;
      Repeat(group, between, n)
  }

  /** The assignments of an ON DUPLICATE KEY UPDATE clause, each pair
      `(column, source)` written as `column = VALUES(source)` */
  function Assignments(updates: seq<(string, string)>): string
    decreases |updates|
  {
    if |updates| == 0 then ""
    else Assignment(updates[0]) + (if |updates| > 1 then ", " + Assignments(updates[1..]) else "")
  }

  /** `column = VALUES(source)` for one pair */
  function Assignment(u: (string, string)): string {
    "`" + u.0 + "` = VALUES(`" + u.1 + "`)"
  }

  /** Every pair's assignment appears in the clause text */
  lemma {:induction false} AssignmentsCover(updates: seq<(string, string)>, i: int)
    requires 0 <= i < |updates|
    ensures Contains(Assignments(updates), Assignment(updates[i]))
    decreases i
  {
    var head := Assignment(updates[0]);
    if i == 0 {
      assert IsPrefix(head, Assignments(updates));
    } else {
      var rest := Assignments(updates[1..]);
      AssignmentsCover(updates[1..], i - 1);
      assert Assignments(updates) == (head + ", ") + rest;
      ContainsAfter(head + ", ", rest, Assignment(updates[i]));
    }
  }

  /** ` ON DUPLICATE KEY UPDATE ...`: no placeholders */
  function UpsertClause(updates: seq<(string, string)>): (sql: seq<Frag>)
    ensures Holes(sql) == 0
  {
    [Text(" ON DUPLICATE KEY UPDATE " + Assignments(updates))]
  }

  /** A multi-row `INSERT ... VALUES ... ON DUPLICATE KEY UPDATE ...` of
      `n` rows: `width` placeholders per row and none elsewhere */
  function UpsertText(insert: string, width: nat, n: nat, sep: string, updates: seq<(string, string)>): (sql: seq<Frag>)
    ensures Holes(sql) == width * n
    ensures |sql| >= 2 && sql[0] == Text(insert) && sql[|sql| - 1..] == UpsertClause(updates)
  {
    var head, rows, tail := [Text(insert)], ValuesRows(width, n, sep), UpsertClause(updates);
    HolesAppend(head, rows);
    HolesAppend(head + rows, tail);
    head + rows + tail
  }

  /** The statement text rendered as the string sent to the server */
  function Render(sql: seq<Frag>): string
    decreases |sql|
  {
    if |sql| == 0 then ""
    else (match sql[0] case Text(t) => t case Param => "?") + Render(sql[1..])
  }

  lemma {:induction false} RenderAppend(a: seq<Frag>, b: seq<Frag>)
    ensures Render(a + b) == Render(a) + Render(b)
    decreases |a|
  {
    if |a| == 0 {
      assert a + b == b;
    } else {
      assert (a + b)[0] == a[0];
      assert (a + b)[1..] == a[1..] + b;
      RenderAppend(a[1..], b);
    }
  }

  /** The joined list of `n` placeholders renders as `?,?,...,?`: `?` at
      even positions, `,` at odd ones */
  lemma {:induction false} InListRendering(n: nat)
    requires n > 0
    ensures |Render(InList(n))| == 2 * n - 1
    ensures forall k :: 0 <= k < 2 * n - 1 ==> Render(InList(n))[k] == if k % 2 == 0 then '?' else ','
    decreases n
  {
    if n == 1 {
      assert Render(InList(1)) == "?" by {
        assert Render([Param]) == "?" + Render([]);
      }
    } else {
      var prev := Repeat([Param], [Text(",")], n - 1);
      assert InList(n - 1) == prev;
      InListRendering(n - 1);
      RenderAppend(prev + [Text(",")], [Param]);
      RenderAppend(prev, [Text(",")]);
      assert Render([Text(",")]) == "," + Render([]);
      assert Render([Param]) == "?" + Render([]);
      assert Render(InList(n)) == Render(prev) + "," + "?";
    }
  }

  /** The number of occurrences of `c` in `s` */
  function Occurrences(s: string, c: char): nat
    decreases |s|
  {
    if |s| == 0 then 0 else (if s[0] == c then 1 else 0) + Occurrences(s[1..], c)
  }

  lemma {:induction false} OccurrencesAppend(a: string, b: string, c: char)
    ensures Occurrences(a + b, c) == Occurrences(a, c) + Occurrences(b, c)
    decreases |a|
  {
    if |a| == 0 {
      assert a + b == b;
    } else {
      assert (a + b)[0] == a[0];
      assert (a + b)[1..] == a[1..] + b;
      OccurrencesAppend(a[1..], b, c);
    }
  }

  /** The text sent to the server has exactly one `?` per placeholder,
      provided no literal fragment contains a `?` of its own */
  lemma {:induction false} RenderCountsHoles(sql: seq<Frag>)
    requires forall i :: 0 <= i < |sql| ==> sql[i].Text? ==> Occurrences(sql[i].text, '?') == 0
    ensures Occurrences(Render(sql), '?') == Holes(sql)
    decreases |sql|
  {
    if |sql| > 0 {
      RenderCountsHoles(sql[1..]);
      var first := match sql[0] case Text(t) => t case Param => "?";
      OccurrencesAppend(first, Render(sql[1..]), '?');
      if sql[0].Param? {
        assert Occurrences(first, '?') == 1 by {
          assert first[1..] == "";
        }
      }
    }
  }
}
