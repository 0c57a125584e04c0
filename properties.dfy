/// What `Query.Sanitize` promises, proved about its specification `Render`: which
/// inputs succeed, what the output is made of, how each typed slot is written, which
/// error wins, and what the cursor coupling forces on every template that renders.
module SanitizeProperties {
  import opened Format
  import opened Sanitize

  /** The text part `p` at cursor `k` contributes when it renders. */
  function Piece(p: Part, k: nat, args: seq<Arg>, fmts: Formatters): string {
    match RenderPart(p, k, args, fmts)
    case Rendered(text) => text
    case _ => ""
  }

  function Pieces(ps: seq<Part>, args: seq<Arg>, fmts: Formatters): seq<string> {
    seq(|ps|, k requires 0 <= k < |ps| => Piece(ps[k], k, args, fmts))
  }

  /** The strings of `ss` written one after the other. */
  function Join(ss: seq<string>): string {
    if ss == [] then "" else Join(ss[..|ss| - 1]) + ss[|ss| - 1]
  }

  /** The argument a back-reference or typed slot at cursor `k` consumes. */
  function Target(p: Part, k: nat): int
    requires p.Ref? || p.Slot?
  {
    if p.Ref? then p.index else k
  }

  /** The indices 0 .. n-1. */
  function Indices(n: nat): (r: set<int>)
    ensures forall j :: j in r <==> 0 <= j < n
    ensures |r| == n
  {
    if n == 0 then {} else Indices(n - 1) + {n - 1}
  }

  lemma {:induction false} JoinAppend(a: seq<string>, b: seq<string>)
    ensures Join(a + b) == Join(a) + Join(b)
  {
    if b == [] {
      assert a + b == a;
    } else {
      var ab := a + b;
      assert ab[..|ab| - 1] == a + b[..|b| - 1];
      assert ab[|ab| - 1] == b[|b| - 1];
      JoinAppend(a, b[..|b| - 1]);
      calc {
        Join(ab);
        Join(a + b[..|b| - 1]) + b[|b| - 1];
        (Join(a) + Join(b[..|b| - 1])) + b[|b| - 1];
        Join(a) + (Join(b[..|b| - 1]) + b[|b| - 1]);
        Join(a) + Join(b);
      }
    }
  }

  /** Walking the first `n` parts succeeds exactly when each of them renders, and then it
      yields their texts in order. */
  lemma {:induction false} WalkRendersAll(ps: seq<Part>, n: nat, args: seq<Arg>, fmts: Formatters)
    requires n <= |ps|
    ensures Walk(ps, n, args, fmts).Rendered? <==>
              forall k :: 0 <= k < n ==> RenderPart(ps[k], k, args, fmts).Rendered?
    ensures Walk(ps, n, args, fmts).Rendered? ==>
              Walk(ps, n, args, fmts).sql == Join(Pieces(ps, args, fmts)[..n])
  {
    if n > 0 {
      WalkRendersAll(ps, n - 1, args, fmts);
      var pieces := Pieces(ps, args, fmts);
      assert pieces[..n][..n - 1] == pieces[..n - 1];
    }
  }

  /** `j` is marked used after `n` parts exactly when one of them is a back-reference to
      `j` or a typed slot met with the cursor at `j`. */
  lemma {:induction false} MarkedMembers(ps: seq<Part>, n: nat, j: int)
    requires n <= |ps|
    ensures j in Marked(ps, n) <==> exists k :: 0 <= k < n && (ps[k] == Ref(j) || (ps[k] == Slot && k == j))
  {
    if n > 0 {
      MarkedMembers(ps, n - 1, j);
      if j in MarkOf(ps[n - 1], n - 1) {
        assert ps[n - 1] == Ref(j) || (ps[n - 1] == Slot && n - 1 == j);
      }
    }
  }

  /** The whole success condition of `Sanitize`, both ways: the arity matches, every part
      renders at its own cursor position, and every argument is consumed by a
      back-reference to it or by the typed slot at its position. The output is then the
      parts' texts in template order. */
  lemma RenderedIff(q: Query, args: seq<Arg>, fmts: Formatters)
    ensures Render(q, args, fmts).Rendered? <==>
              && |args| == |q.parts| - 1
              && (forall k :: 0 <= k < |q.parts| ==> RenderPart(q.parts[k], k, args, fmts).Rendered?)
              && (forall j :: 0 <= j < |args| ==>
                    exists k :: 0 <= k < |q.parts| && (q.parts[k] == Ref(j) || (q.parts[k] == Slot && k == j)))
    ensures Render(q, args, fmts).Rendered? ==> Render(q, args, fmts).sql == Join(Pieces(q.parts, args, fmts))
  {
    var ps := q.parts;
    WalkRendersAll(ps, |ps|, args, fmts);
    assert Pieces(ps, args, fmts)[..|ps|] == Pieces(ps, args, fmts);
    forall j | 0 <= j < |args| {
      MarkedMembers(ps, |ps|, j);
    }
  }

  /** The unused-argument error is reported exactly when everything else succeeded and
      some argument index was never marked. */
  lemma UnusedIff(q: Query, args: seq<Arg>, fmts: Formatters)
    ensures Render(q, args, fmts) == Failed(ArgumentUnused) <==>
              && |args| == |q.parts| - 1
              && (forall k :: 0 <= k < |q.parts| ==> RenderPart(q.parts[k], k, args, fmts).Rendered?)
              && (exists j :: 0 <= j < |args| && j !in Marked(q.parts, |q.parts|))
  {
    WalkRendersAll(q.parts, |q.parts|, args, fmts);
    if |args| == |q.parts| - 1 && Walk(q.parts, |q.parts|, args, fmts).Rendered? {
      if forall j :: 0 <= j < |args| ==> j in Marked(q.parts, |q.parts|) {
        assert Render(q, args, fmts).Rendered?;
      } else {
        var j :| 0 <= j < |args| && j !in Marked(q.parts, |q.parts|);
        assert Render(q, args, fmts) == Failed(ArgumentUnused);
        assert forall k :: 0 <= k < |q.parts| ==> RenderPart(q.parts[k], k, args, fmts).Rendered?;
        assert exists u :: 0 <= u < |args| && u !in Marked(q.parts, |q.parts|);
      }
    }
  }

  /** Errors are reported in template order: with the arity right, the first part that
      does not render decides the result, whatever follows it. */
  lemma FirstFailureWins(q: Query, k: nat, args: seq<Arg>, fmts: Formatters)
    requires |args| == |q.parts| - 1
    requires k < |q.parts|
    requires forall m :: 0 <= m < k ==> RenderPart(q.parts[m], m, args, fmts).Rendered?
    requires !RenderPart(q.parts[k], k, args, fmts).Rendered?
    ensures Render(q, args, fmts) == RenderPart(q.parts[k], k, args, fmts)
    ensures !Render(q, args, fmts).Rendered?
  {
    WalkRendersAll(q.parts, k, args, fmts);
    FirstFailureDecides(q, k, args, fmts);
  }

  /** In a rendered query each part's text stands at its own place in the output: a
      literal verbatim, a back-reference as the bare string argument it names, and a
      typed slot as the formatted argument at its cursor position inside parentheses. */
  lemma PartInOutput(q: Query, args: seq<Arg>, fmts: Formatters, k: nat)
    requires Render(q, args, fmts).Rendered?
    requires k < |q.parts|
    ensures var pieces := Pieces(q.parts, args, fmts);
            Render(q, args, fmts).sql == Join(pieces[..k]) + pieces[k] + Join(pieces[k + 1..])
    ensures q.parts[k].Lit? ==> Pieces(q.parts, args, fmts)[k] == q.parts[k].text
    ensures q.parts[k].Ref? ==>
              && 0 <= q.parts[k].index < |args|
              && args[q.parts[k].index].Str?
              && Pieces(q.parts, args, fmts)[k] == args[q.parts[k].index].s
    ensures q.parts[k].Slot? ==>
              && k < |args|
              && FormatArg(args[k], fmts).Some?
              && Pieces(q.parts, args, fmts)[k] == "(" + FormatArg(args[k], fmts).value + ")"
  {
    RenderedIff(q, args, fmts);
    var pieces := Pieces(q.parts, args, fmts);
    assert pieces == pieces[..k] + [pieces[k]] + pieces[k + 1..];
    JoinAppend(pieces[..k] + [pieces[k]], pieces[k + 1..]);
    JoinAppend(pieces[..k], [pieces[k]]);
    assert Join([pieces[k]]) == pieces[k] by {
      assert [pieces[k]][..0] == [];
    }
  }

  /** Where `(text)` sits in `before + "(" + text + ")" + after`, and that neither of its
      edges forms `--` with the character next to it. */
  lemma EnclosedAt(before: string, text: string, after: string)
    ensures var s := before + ("(" + text + ")") + after;
            var start := |before|;
            && start + |text| + 2 <= |s|
            && s[start] == '('
            && s[start + 1..start + 1 + |text|] == text
            && s[start + 1 + |text|] == ')'
            && (start > 0 ==> s[start - 1..start + 1] != "--")
            && (start + |text| + 2 < |s| ==> s[start + 1 + |text|..start + |text| + 3] != "--")
  {
  }

  /** The comment-injection defence: in the output, a typed slot's text opens with `(` and
      closes with the matching `)`, with exactly the formatted argument in between, so
      neither edge can join a neighbouring `-` into `--`. */
  lemma SlotIsParenthesized(q: Query, args: seq<Arg>, fmts: Formatters, k: nat)
    requires Render(q, args, fmts).Rendered?
    requires k < |q.parts| && q.parts[k].Slot?
    ensures k < |args| && FormatArg(args[k], fmts).Some?
    ensures var sql := Render(q, args, fmts).sql;
            var start := |Join(Pieces(q.parts, args, fmts)[..k])|;
            var text := FormatArg(args[k], fmts).value;
            && start + |text| + 2 <= |sql|
            && sql[start] == '('
            && sql[start + 1..start + 1 + |text|] == text
            && sql[start + 1 + |text|] == ')'
            && (start > 0 ==> sql[start - 1..start + 1] != "--")
            && (start + |text| + 2 < |sql| ==> sql[start + 1 + |text|..start + |text| + 3] != "--")
  {
    PartInOutput(q, args, fmts, k);
    var pieces := Pieces(q.parts, args, fmts);
    EnclosedAt(Join(pieces[..k]), FormatArg(args[k], fmts).value, Join(pieces[k + 1..]));
  }

  /** How a typed slot at cursor `k` writes each kind of argument, and that it fails
      exactly on a string or an unsupported type. */
  lemma SlotFormatting(k: nat, args: seq<Arg>, fmts: Formatters)
    requires k < |args|
    ensures args[k] == Null ==> RenderPart(Slot, k, args, fmts) == Rendered("(null)")
    ensures args[k] == Bool(true) ==> RenderPart(Slot, k, args, fmts) == Rendered("(true)")
    ensures args[k] == Bool(false) ==> RenderPart(Slot, k, args, fmts) == Rendered("(false)")
    ensures args[k].I64? ==> RenderPart(Slot, k, args, fmts) == Rendered("(" + Decimal(args[k].v) + ")")
    ensures args[k].F64? ==> RenderPart(Slot, k, args, fmts) == Rendered("(" + fmts.float(args[k].bits) + ")")
    ensures args[k].Bytes? ==>
              RenderPart(Slot, k, args, fmts) == Rendered("('" + BytesAsText(args[k].data) + "')")
    ensures args[k].Time? ==>
              RenderPart(Slot, k, args, fmts) == Rendered("('" + fmts.time(args[k].t) + "')")
    ensures RenderPart(Slot, k, args, fmts) == Failed(InvalidArgType) <==> args[k].Str? || args[k].Other?
  {
  }

  /** A back-reference or typed slot fails the index check exactly when the cursor — the
      part's own position, not a back-reference's index — is past the last argument. */
  lemma CursorCheck(p: Part, k: nat, args: seq<Arg>, fmts: Formatters)
    requires p.Ref? || p.Slot?
    ensures RenderPart(p, k, args, fmts) == Failed(IndexOutOfRange) <==> k >= |args|
    ensures p.Slot? && k < |args| ==> (RenderPart(p, k, args, fmts).Rendered? <==> FormatArg(args[k], fmts).Some?)
    ensures p.Ref? && k < |args| ==>
              && (RenderPart(p, k, args, fmts).Panicked? <==> !(0 <= p.index < |args|))
              && (RenderPart(p, k, args, fmts) == Failed(InvalidArgType) <==> 0 <= p.index < |args| && !args[p.index].Str?)
              && (RenderPart(p, k, args, fmts).Rendered? <==> 0 <= p.index < |args| && args[p.index].Str?)
  {
  }

  /** A typed slot holding an `int64` renders, and no `--` line comment can start inside
      its text. */
  lemma IntegerSlotHasNoComment(k: nat, args: seq<Arg>, fmts: Formatters)
    requires k < |args| && args[k].I64?
    ensures RenderPart(Slot, k, args, fmts).Rendered?
    ensures var s := RenderPart(Slot, k, args, fmts).sql;
            forall i :: 0 <= i < |s| - 1 ==> !(s[i] == '-' && s[i + 1] == '-')
  {
    DecimalHasNoDoubleDash(args[k].v);
  }

  /** Each part marks at most one index, so `b - a` more parts add at most `b - a`. */
  lemma {:induction false} MarkedGrowth(ps: seq<Part>, a: nat, b: nat)
    requires a <= b <= |ps|
    ensures |Marked(ps, b)| <= |Marked(ps, a)| + (b - a)
  {
    if a < b {
      MarkedGrowth(ps, a, b - 1);
    }
  }

  lemma {:induction false} MarkedContains(ps: seq<Part>, k: nat, n: nat)
    requires k < n <= |ps|
    ensures MarkOf(ps[k], k) <= Marked(ps, n)
  {
    if k < n - 1 {
      MarkedContains(ps, k, n - 1);
    }
  }

  lemma SubsetSize(a: set<int>, b: set<int>)
    requires a <= b
    ensures |a| <= |b|
  {
    assert b == a + (b - a);
  }

  /** A part that marks nothing new leaves the first `n` parts short of `n` marks. */
  lemma StaleMarkShrinks(ps: seq<Part>, n: nat, k: nat)
    requires k < n <= |ps|
    ensures MarkOf(ps[k], k) <= Marked(ps, k) ==> |Marked(ps, n)| < n
  {
    if MarkOf(ps[k], k) <= Marked(ps, k) {
      assert Marked(ps, k + 1) == Marked(ps, k);
      MarkedGrowth(ps, 0, k);
      MarkedGrowth(ps, k + 1, n);
    }
  }

  /** What the arity check and the cursor coupling force on every template that renders
      with n arguments: the first n parts are all back-references or typed slots, they
      consume pairwise different arguments, so each argument is consumed exactly once and
      no argument is referred to twice, and part n, the last, is literal text. */
  lemma RenderedShape(q: Query, args: seq<Arg>, fmts: Formatters)
    requires Render(q, args, fmts).Rendered?
    ensures |q.parts| == |args| + 1 && q.parts[|args|].Lit?
    ensures forall k :: 0 <= k < |args| ==> q.parts[k].Ref? || q.parts[k].Slot?
    ensures forall k :: 0 <= k < |args| ==> 0 <= Target(q.parts[k], k) < |args|
    ensures forall k1, k2 :: 0 <= k1 < k2 < |args| ==> Target(q.parts[k1], k1) != Target(q.parts[k2], k2)
  {
    var ps, n := q.parts, |args|;
    RenderedIff(q, args, fmts);
    assert RenderPart(ps[n], n, args, fmts).Rendered?;
    assert Marked(ps, n + 1) == Marked(ps, n);
    SubsetSize(Indices(n), Marked(ps, n));
    forall k | 0 <= k < n
      ensures (ps[k].Ref? || ps[k].Slot?) && 0 <= Target(ps[k], k) < n
    {
      assert RenderPart(ps[k], k, args, fmts).Rendered?;
      StaleMarkShrinks(ps, n, k);
    }
    forall k1, k2 | 0 <= k1 < k2 < n
      ensures Target(ps[k1], k1) != Target(ps[k2], k2)
    {
      StaleMarkShrinks(ps, n, k2);
      MarkedContains(ps, k1, k2);
    }
  }

  /** Consequently a template that refers to one argument twice never renders: the
      second reference leaves some argument unconsumed or runs the cursor out. */
  lemma ReusedReferenceNeverRenders(q: Query, args: seq<Arg>, fmts: Formatters, k1: nat, k2: nat)
    requires k1 < k2 < |q.parts|
    requires q.parts[k1].Ref? && q.parts[k2] == q.parts[k1]
    ensures !Render(q, args, fmts).Rendered?
  {
    if Render(q, args, fmts).Rendered? {
      RenderedShape(q, args, fmts);
      assert false;
    }
  }

  /** Consequently literal text anywhere but in the last part never renders. */
  lemma EarlyLiteralNeverRenders(q: Query, args: seq<Arg>, fmts: Formatters, k: nat)
    requires k < |q.parts| - 1 && q.parts[k].Lit?
    ensures !Render(q, args, fmts).Rendered?
  {
    if Render(q, args, fmts).Rendered? {
      RenderedShape(q, args, fmts);
      assert false;
    }
  }

  /** A template that interleaves literals with typed slots, written with one argument
      per slot, fails the arity check; given one more argument, the cursor of its last
      slot runs past the arguments. */
  lemma InterleavedTemplateFails(fmts: Formatters)
    ensures var q := Query([Lit("SELECT * FROM t WHERE id = "), Slot, Lit(" AND flag = "), Slot]);
            && Render(q, [I64(5), Bool(true)], fmts) == Failed(ArityMismatch)
            && Render(q, [I64(0), I64(5), Bool(true)], fmts) == Failed(IndexOutOfRange)
  {
    var q := Query([Lit("SELECT * FROM t WHERE id = "), Slot, Lit(" AND flag = "), Slot]);
    var args := [I64(0), I64(5), Bool(true)];
    assert RenderPart(q.parts[1], 1, args, fmts).Rendered?;
    FirstFailureWins(q, 3, args, fmts);
  }

  /** A negative number placed right after a minus sign stays an expression instead of
      starting a line comment. */
  lemma NegativeAfterMinus(fmts: Formatters)
    ensures Render(Query([Ref(0), Slot, Lit("")]), [Str("SELECT 1-"), I64(-1)], fmts) == Rendered("SELECT 1-(-1)")
  {
    var ps := [Ref(0), Slot, Lit("")];
    var args := [Str("SELECT 1-"), I64(-1)];
    assert Decimal(-1) == "-1";
    assert Walk(ps, 1, args, fmts) == Rendered("SELECT 1-");
    assert Walk(ps, 2, args, fmts) == Rendered("SELECT 1-(-1)");
    assert Walk(ps, 3, args, fmts) == Rendered("SELECT 1-(-1)");
    assert Marked(ps, 3) == {0, 1};
  }

  /** A byte slice is quoted but a quote inside it is not escaped. */
  lemma BytesQuoteNotEscaped(fmts: Formatters)
    ensures Render(Query([Slot, Lit("")]), [Bytes([79, 39, 66, 114, 105, 101, 110])], fmts) == Rendered("('O'Brien')")
  {
    var ps := [Slot, Lit("")];
    var args := [Bytes([79, 39, 66, 114, 105, 101, 110])];
    assert BytesAsText([79, 39, 66, 114, 105, 101, 110]) == "O'Brien";
    assert Walk(ps, 1, args, fmts) == Rendered("('O'Brien')");
    assert Walk(ps, 2, args, fmts) == Rendered("('O'Brien')");
    assert Marked(ps, 2) == {0};
  }
}
