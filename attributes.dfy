/**
  The attribute extractor: reads a variant's `#[baxe(...)]` attributes into the
  four optional pieces of metadata `status`, `tag`, `code` and `message`.

  `Step`, `FoldEntries` and `FoldAttrs` give the left-to-right fold that the
  source performs; `ParseBaxeAttributes` is the imperative loop itself, proved
  equal to the fold; `Latest` and the lemmas after it say what the fold means:
  only `baxe` attributes are read, unknown keys are skipped, and the last
  occurrence of each key wins.
 */
module Attributes {
  import opened Wrappers
  import opened Syntax

  /** The four mutable `Option` locals of the extractor. */
  datatype Extracted = Extracted(status: Option<Expr>, tag: Option<string>, code: Option<Expr>, message: Option<string>)

  const Unset := Extracted(None, None, None, None)

  /** The extractor's result: each field as the tokens `quote!(#field)` produces. */
  datatype BaxeAttributes = BaxeAttributes(status: TokenStream, tag: TokenStream, code: TokenStream, message: TokenStream)

  /** A parse error raised inside `parse_nested_meta`; `.unwrap()` turns it into an abort. */
  datatype SynError = SynError

  predicate Recognized(key: Path)
  {
    IsIdent(key, "status") || IsIdent(key, "tag") || IsIdent(key, "code") || IsIdent(key, "message")
  }

  /** `value.parse::<Expr>()`: every literal and every expression is an expression. */
  function AsExpr(v: MetaValue): (r: Option<Expr>)
    ensures r.None? <==> v.Malformed?
  {
    match v
    case Literal(l) => Some(LitExpr(l))
    case Expression(t) => Some(NonLitExpr(t))
    case Malformed => None
  }

  /** `value.parse::<Lit>()`: only a literal token is a literal. */
  function AsLit(v: MetaValue): (r: Option<Lit>)
    ensures r.Some? <==> v.Literal?
  {
    match v
    case Literal(l) => Some(l)
    case _ => None
  }

  /** The string of a string-literal value, the only value `tag` and `message` take. */
  function StrOf(v: MetaValue): Option<string>
  {
    match v
    case Literal(StrLit(s)) => Some(s)
    case _ => None
  }

  /** An entry the parser rejects: a recognised key whose value cannot be read as required. */
  predicate Rejects(e: MetaEntry)
  {
    || ((IsIdent(e.key, "status") || IsIdent(e.key, "code")) && e.value.Malformed?)
    || ((IsIdent(e.key, "tag") || IsIdent(e.key, "message")) && !e.value.Literal?)
  }

  predicate AnyRejected(es: seq<MetaEntry>)
  {
    exists i :: 0 <= i < |es| && Rejects(es[i])
  }

  /** One call of the `parse_nested_meta` closure on one entry. */
  function Step(acc: Extracted, e: MetaEntry): (r: Result<Extracted, SynError>)
    ensures r.Err? <==> Rejects(e)
    ensures !Recognized(e.key) ==> r == Ok(acc)
  {
    if IsIdent(e.key, "status") then
      match AsExpr(e.value)
      case None => Err(SynError)
      case Some(x) => Ok(acc.(status := Some(x)))
    else if IsIdent(e.key, "tag") then
      match AsLit(e.value)
      case None => Err(SynError)
      case Some(l) => if l.StrLit? then Ok(acc.(tag := Some(l.s))) else Ok(acc)
    else if IsIdent(e.key, "code") then
      match AsExpr(e.value)
      case None => Err(SynError)
      case Some(x) => Ok(acc.(code := Some(x)))
    else if IsIdent(e.key, "message") then
      match AsLit(e.value)
      case None => Err(SynError)
      case Some(l) => if l.StrLit? then Ok(acc.(message := Some(l.s))) else Ok(acc)
    else
      Ok(acc)
  }

  /** The closure applied to the entries of one attribute, left to right; the first error stops it. */
  function FoldEntries(acc: Extracted, es: seq<MetaEntry>): Result<Extracted, SynError>
    decreases |es|
  {
    if es == [] then Ok(acc)
    else
      match Step(acc, es[0])
      case Err(e) => Err(e)
      case Ok(acc') => FoldEntries(acc', es[1..])
  }

  /** The `for attr in &variant.attrs` loop: attributes not named `baxe` are skipped. */
  function FoldAttrs(acc: Extracted, attrs: seq<Attribute>): Result<Extracted, SynError>
    decreases |attrs|
  {
    if attrs == [] then Ok(acc)
    else if !IsIdent(attrs[0].path, "baxe") then FoldAttrs(acc, attrs[1..])
    else
      match attrs[0].args
      case NotList => Err(SynError)
      case ArgList(es) =>
        match FoldEntries(acc, es)
        case Err(e) => Err(e)
        case Ok(acc') => FoldAttrs(acc', attrs[1..])
  }

  /** The four fields a variant's attributes yield, before rendering. */
  function Extract(attrs: seq<Attribute>): Result<Extracted, SynError>
  {
    FoldAttrs(Unset, attrs)
  }

  /** `quote!(#x)` for an `Option<Expr>`: the expression, or nothing at all. */
  function RenderExpr(x: Option<Expr>): (r: TokenStream)
    ensures r == [] <==> x.None?
    ensures x.Some? ==> r == [ExprToken(x.value)]
  {
    match x
    case None => []
    case Some(e) => [ExprToken(e)]
  }

  /** `quote!(#x)` for an `Option<String>`: a string literal token, or nothing at all. */
  function RenderStr(x: Option<string>): (r: TokenStream)
    ensures r == [] <==> x.None?
    ensures x.Some? ==> r == [StrToken(x.value)]
  {
    match x
    case None => []
    case Some(s) => [StrToken(s)]
  }

  function Render(x: Extracted): BaxeAttributes
  {
    BaxeAttributes(RenderExpr(x.status), RenderStr(x.tag), RenderExpr(x.code), RenderStr(x.message))
  }

  /** What `parse_baxe_attributes` returns for a variant's attributes, or the abort it raises. */
  function ParseAttrs(attrs: seq<Attribute>): Result<BaxeAttributes, SynError>
  {
    match Extract(attrs)
    case Err(e) => Err(e)
    case Ok(x) => Ok(Render(x))
  }

  /** `parse_baxe_attributes`: four `Option` locals overwritten in a loop over the attributes. */
  method ParseBaxeAttributes(variant: Variant) returns (r: Result<BaxeAttributes, SynError>)
    ensures r == ParseAttrs(variant.attrs)
  {
    var status: Option<Expr> := None;
    var tag: Option<string> := None;
    var code: Option<Expr> := None;
    var message: Option<string> := None;
    var attrs := variant.attrs;
    var i := 0;
    while i < |attrs|
      invariant 0 <= i <= |attrs|
      invariant FoldAttrs(Extracted(status, tag, code, message), attrs[i..]) == Extract(attrs)
    {
      var attr := attrs[i];
      assert attrs[i..][0] == attr && attrs[i..][1..] == attrs[i + 1..];
      if IsIdent(attr.path, "baxe") {
        if attr.args.NotList? {
          return Err(SynError);
        }
        var entries := attr.args.entries;
        ghost var start := Extracted(status, tag, code, message);
        var j := 0;
        while j < |entries|
          invariant 0 <= j <= |entries|
          invariant FoldEntries(Extracted(status, tag, code, message), entries[j..]) == FoldEntries(start, entries)
        {
          var entry := entries[j];
          assert entries[j..][0] == entry && entries[j..][1..] == entries[j + 1..];
          if IsIdent(entry.key, "status") {
            var value := AsExpr(entry.value);
            if value.None? {
              return Err(SynError);
            }
            status := value;
          } else if IsIdent(entry.key, "tag") {
            var lit := AsLit(entry.value);
            if lit.None? {
              return Err(SynError);
            }
            if lit.value.StrLit? {
              tag := Some(lit.value.s);
            }
          } else if IsIdent(entry.key, "code") {
            var value := AsExpr(entry.value);
            if value.None? {
              return Err(SynError);
            }
            code := value;
          } else if IsIdent(entry.key, "message") {
            var lit := AsLit(entry.value);
            if lit.None? {
              return Err(SynError);
            }
            if lit.value.StrLit? {
              message := Some(lit.value.s);
            }
          }
          j := j + 1;
        }
      }
      i := i + 1;
    }
    r := Ok(Render(Extracted(status, tag, code, message)));
  }

  // ---------------------------------------------------------------------------
  // What the fold means

  /** The entries of all `baxe` attributes, in order; `None` when one of them is not an argument list. */
  function BaxeEntries(attrs: seq<Attribute>): Option<seq<MetaEntry>>
    decreases |attrs|
  {
    if attrs == [] then Some([])
    else if !IsIdent(attrs[0].path, "baxe") then BaxeEntries(attrs[1..])
    else
      match attrs[0].args
      case NotList => None
      case ArgList(es) =>
        match BaxeEntries(attrs[1..])
        case None => None
        case Some(rest) => Some(es + rest)
  }

  /** The expression of the last entry with key `k` whose value is an expression. */
  function LastExpr(es: seq<MetaEntry>, k: Name): Option<Expr>
    decreases |es|
  {
    if es == [] then None
    else OrElse(LastExpr(es[1..], k), if IsIdent(es[0].key, k) then AsExpr(es[0].value) else None)
  }

  /** The string of the last entry with key `k` whose value is a string literal. */
  function LastStr(es: seq<MetaEntry>, k: Name): Option<string>
    decreases |es|
  {
    if es == [] then None
    else OrElse(LastStr(es[1..], k), if IsIdent(es[0].key, k) then StrOf(es[0].value) else None)
  }

  /** `acc` with every field that `es` sets replaced by the last value `es` gives it. */
  function Latest(acc: Extracted, es: seq<MetaEntry>): Extracted
  {
    Extracted(
      OrElse(LastExpr(es, "status"), acc.status),
      OrElse(LastStr(es, "tag"), acc.tag),
      OrElse(LastExpr(es, "code"), acc.code),
      OrElse(LastStr(es, "message"), acc.message))
  }

  /** The entry fold fails exactly when some entry is rejected, and otherwise keeps the last value per key. */
  lemma {:induction false} FoldEntriesIsLatest(acc: Extracted, es: seq<MetaEntry>)
    ensures FoldEntries(acc, es) == if AnyRejected(es) then Err(SynError) else Ok(Latest(acc, es))
    decreases |es|
  {
    if es != [] {
      var e, rest := es[0], es[1..];
      if Rejects(e) {
        assert AnyRejected(es) by { assert Rejects(es[0]); }
      } else {
        var acc' := Step(acc, e).value;
        FoldEntriesIsLatest(acc', rest);
        assert AnyRejected(es) <==> AnyRejected(rest) by {
          if AnyRejected(es) {
            var i :| 0 <= i < |es| && Rejects(es[i]);
            assert i > 0 && Rejects(rest[i - 1]);
          }
          if AnyRejected(rest) {
            var i :| 0 <= i < |rest| && Rejects(rest[i]);
            assert Rejects(es[i + 1]);
          }
        }
        assert Latest(acc', rest) == Latest(acc, es);
      }
    }
  }

  /** Folding over two entry lists is folding over the first, then over the second. */
  lemma {:induction false} FoldEntriesAppend(acc: Extracted, xs: seq<MetaEntry>, ys: seq<MetaEntry>)
    ensures FoldEntries(acc, xs + ys) == match FoldEntries(acc, xs) case Err(e) => Err(e) case Ok(a) => FoldEntries(a, ys)
    decreases |xs|
  {
    if xs == [] {
      assert xs + ys == ys;
    } else {
      assert xs + ys != [] && (xs + ys)[0] == xs[0] && (xs + ys)[1..] == xs[1..] + ys;
      match Step(acc, xs[0])
      case Err(_) =>
      case Ok(a) => FoldEntriesAppend(a, xs[1..], ys);
    }
  }

  /** Reading the attributes is reading the entries of all `baxe` attributes as one list. */
  lemma {:induction false} FoldAttrsIsFoldOfBaxeEntries(acc: Extracted, attrs: seq<Attribute>)
    ensures FoldAttrs(acc, attrs) == match BaxeEntries(attrs) case None => Err(SynError) case Some(es) => FoldEntries(acc, es)
    decreases |attrs|
  {
    if attrs != [] {
      if !IsIdent(attrs[0].path, "baxe") {
        FoldAttrsIsFoldOfBaxeEntries(acc, attrs[1..]);
      } else if attrs[0].args.ArgList? {
        var es := attrs[0].args.entries;
        match FoldEntries(acc, es)
        case Err(err) =>
          assert err == SynError;
          if BaxeEntries(attrs[1..]).Some? {
            FoldEntriesAppend(acc, es, BaxeEntries(attrs[1..]).value);
          }
        case Ok(a) =>
          FoldAttrsIsFoldOfBaxeEntries(a, attrs[1..]);
          if BaxeEntries(attrs[1..]).Some? {
            FoldEntriesAppend(acc, es, BaxeEntries(attrs[1..]).value);
          }
      }
    }
  }

  /**
    The whole extraction in one statement: it aborts when a `baxe` attribute is not
    an argument list or one of its entries is rejected, and otherwise each field holds
    the last value given to it across all `baxe` attributes, or stays unset.
   */
  lemma ExtractIsLatest(attrs: seq<Attribute>)
    ensures Extract(attrs) ==
      match BaxeEntries(attrs)
      case None => Err(SynError)
      case Some(es) => if AnyRejected(es) then Err(SynError) else Ok(Latest(Unset, es))
  {
    FoldAttrsIsFoldOfBaxeEntries(Unset, attrs);
    if BaxeEntries(attrs).Some? {
      FoldEntriesIsLatest(Unset, BaxeEntries(attrs).value);
    }
  }

  lemma {:induction false} BaxeEntriesAppend(xs: seq<Attribute>, ys: seq<Attribute>)
    ensures BaxeEntries(xs + ys) ==
      match (BaxeEntries(xs), BaxeEntries(ys))
      case (Some(a), Some(b)) => Some(a + b)
      case _ => None
    decreases |xs|
  {
    if xs == [] {
      assert xs + ys == ys;
      if BaxeEntries(ys).Some? {
        assert [] + BaxeEntries(ys).value == BaxeEntries(ys).value;
      }
    } else {
      assert (xs + ys)[0] == xs[0] && (xs + ys)[1..] == xs[1..] + ys;
      BaxeEntriesAppend(xs[1..], ys);
      if IsIdent(xs[0].path, "baxe") && xs[0].args.ArgList? && BaxeEntries(xs[1..]).Some? && BaxeEntries(ys).Some? {
        var es := xs[0].args.entries;
        assert es + (BaxeEntries(xs[1..]).value + BaxeEntries(ys).value)
            == (es + BaxeEntries(xs[1..]).value) + BaxeEntries(ys).value;
      }
    }
  }

  /** An attribute whose path is not `baxe` is never read, wherever it stands. */
  lemma NonBaxeAttributeIgnored(before: seq<Attribute>, a: Attribute, after: seq<Attribute>)
    requires !IsIdent(a.path, "baxe")
    ensures ParseAttrs(before + [a] + after) == ParseAttrs(before + after)
  {
    BaxeEntriesAppend(before + [a], after);
    BaxeEntriesAppend(before, [a]);
    BaxeEntriesAppend(before, after);
    assert BaxeEntries([a]) == Some([]) by { assert [a][1..] == []; }
    if BaxeEntries(before).Some? {
      assert BaxeEntries(before).value + [] == BaxeEntries(before).value;
    }
    FoldAttrsIsFoldOfBaxeEntries(Unset, before + [a] + after);
    FoldAttrsIsFoldOfBaxeEntries(Unset, before + after);
  }

  /** An entry with a key other than `status`, `tag`, `code` or `message` changes nothing. */
  lemma UnrecognizedEntryIgnored(acc: Extracted, before: seq<MetaEntry>, e: MetaEntry, after: seq<MetaEntry>)
    requires !Recognized(e.key)
    ensures FoldEntries(acc, before + [e] + after) == FoldEntries(acc, before + after)
  {
    assert before + [e] + after == before + ([e] + after);
    FoldEntriesAppend(acc, before, [e] + after);
    FoldEntriesAppend(acc, before, after);
    assert ([e] + after)[0] == e && ([e] + after)[1..] == after;
  }

  /** `LastExpr` is `None` exactly when no entry with key `k` carries an expression. */
  lemma {:induction false} LastExprNone(es: seq<MetaEntry>, k: Name)
    ensures LastExpr(es, k).None? <==> forall i :: 0 <= i < |es| && IsIdent(es[i].key, k) ==> es[i].value.Malformed?
    decreases |es|
  {
    if es != [] {
      LastExprNone(es[1..], k);
      assert forall i :: 1 <= i < |es| ==> es[i] == es[1..][i - 1];
    }
  }

  /** The entry at `i` decides `LastExpr` when no later entry with key `k` carries an expression. */
  lemma {:induction false} LastExprIsLast(es: seq<MetaEntry>, k: Name, i: nat)
    requires i < |es| && IsIdent(es[i].key, k) && !es[i].value.Malformed?
    requires forall j :: i < j < |es| && IsIdent(es[j].key, k) ==> es[j].value.Malformed?
    ensures LastExpr(es, k) == AsExpr(es[i].value)
    decreases |es|
  {
    if i == 0 {
      LastExprNone(es[1..], k);
      assert forall j :: 0 <= j < |es[1..]| ==> es[1..][j] == es[j + 1];
    } else {
      LastExprIsLast(es[1..], k, i - 1);
      assert forall j :: i - 1 < j < |es[1..]| ==> es[1..][j] == es[j + 1];
    }
  }

  /** `LastStr` is `None` exactly when no entry with key `k` carries a string literal. */
  lemma {:induction false} LastStrNone(es: seq<MetaEntry>, k: Name)
    ensures LastStr(es, k).None? <==> forall i :: 0 <= i < |es| && IsIdent(es[i].key, k) ==> StrOf(es[i].value).None?
    decreases |es|
  {
    if es != [] {
      LastStrNone(es[1..], k);
      assert forall i :: 1 <= i < |es| ==> es[i] == es[1..][i - 1];
    }
  }

  /** The entry at `i` decides `LastStr` when no later entry with key `k` carries a string literal. */
  lemma {:induction false} LastStrIsLast(es: seq<MetaEntry>, k: Name, i: nat, s: string)
    requires i < |es| && IsIdent(es[i].key, k) && es[i].value == Literal(StrLit(s))
    requires forall j :: i < j < |es| && IsIdent(es[j].key, k) ==> StrOf(es[j].value).None?
    ensures LastStr(es, k) == Some(s)
    decreases |es|
  {
    if i == 0 {
      LastStrNone(es[1..], k);
      assert forall j :: 0 <= j < |es[1..]| ==> es[1..][j] == es[j + 1];
    } else {
      LastStrIsLast(es[1..], k, i - 1, s);
      assert forall j :: i - 1 < j < |es[1..]| ==> es[1..][j] == es[j + 1];
    }
  }

  /**
    Last wins for `status` and `code`: when extraction succeeds, the field holds the
    value of the last entry with that key, across all `baxe` attributes.
   */
  lemma LastExprEntryWins(attrs: seq<Attribute>, es: seq<MetaEntry>, k: Name, i: nat)
    requires k == "status" || k == "code"
    requires BaxeEntries(attrs) == Some(es) && Extract(attrs).Ok?
    requires i < |es| && IsIdent(es[i].key, k)
    requires forall j :: i < j < |es| ==> !IsIdent(es[j].key, k)
    ensures (if k == "status" then Extract(attrs).value.status else Extract(attrs).value.code) == AsExpr(es[i].value)
    ensures AsExpr(es[i].value).Some?
  {
    ExtractIsLatest(attrs);
    assert !Rejects(es[i]);
    LastExprIsLast(es, k, i);
  }

  /**
    Last wins for `tag` and `message`, counting only string literals: a later entry
    with a non-string literal leaves the earlier string in place.
   */
  lemma LastStrEntryWins(attrs: seq<Attribute>, es: seq<MetaEntry>, k: Name, i: nat, s: string)
    requires k == "tag" || k == "message"
    requires BaxeEntries(attrs) == Some(es) && Extract(attrs).Ok?
    requires i < |es| && IsIdent(es[i].key, k) && es[i].value == Literal(StrLit(s))
    requires forall j :: i < j < |es| && IsIdent(es[j].key, k) ==> StrOf(es[j].value).None?
    ensures (if k == "tag" then Extract(attrs).value.tag else Extract(attrs).value.message) == Some(s)
  {
    ExtractIsLatest(attrs);
    LastStrIsLast(es, k, i, s);
  }

  /** A key that no `baxe` entry mentions stays unset and renders as no tokens at all. */
  lemma AbsentKeyRendersEmpty(attrs: seq<Attribute>, es: seq<MetaEntry>, k: Name)
    requires Recognized([k])
    requires BaxeEntries(attrs) == Some(es) && ParseAttrs(attrs).Ok?
    requires forall j :: 0 <= j < |es| ==> !IsIdent(es[j].key, k)
    ensures var a := ParseAttrs(attrs).value;
      (if k == "status" then a.status else if k == "tag" then a.tag else if k == "code" then a.code else a.message) == []
  {
    ExtractIsLatest(attrs);
    LastExprNone(es, k);
    LastStrNone(es, k);
  }
}
