/** When two values of an audited field count as the same.
    Source: src/common/audit/audit-diff.util.ts. */
module AuditDiff {
  import opened Options
  import opened Text

  /** A JSON-like value. An object lists its parts in the order its keys enumerate. */
  datatype Json =
    | Null
    | Undefined
    | Bool(flag: bool)
    | Num(number: real)
    | Str(text: string)
    | Arr(elems: seq<Json>)
    | Obj(parts: seq<Part>)

  datatype Part = Part(key: string, value: Json)

  /** `Number(text)` when that is finite; what it reads out of which text is left open. */
  type Reader = string -> Option<real>

  /** An object has each key once. */
  predicate Distinct(ps: seq<Part>) {
    forall i, j :: 0 <= i < j < |ps| ==> ps[i].key != ps[j].key
  }

  predicate WellFormed(v: Json) {
    match v
    case Arr(es) => forall i :: 0 <= i < |es| ==> WellFormed(es[i])
    case Obj(ps) => Distinct(ps) && forall i :: 0 <= i < |ps| ==> WellFormed(ps[i].value)
    case _ => true
  }

  // ── The normal form ────────────────────────────────────────────────────────

  function Normalize(v: Json, numeric: bool, read: Reader): Json
    decreases v
  {
    match v
    case Null => Null
    case Undefined => Null
    case Str(s) =>
      var text := Trim(s);
      if text == "" then Null
      else if numeric && read(text).Some? then Num(read(text).value)
      else Str(text)
    case Arr(es) => Arr(Elements(es, |es|, read))
    case Obj(ps) =>
      var out := Kept(ps, |ps|, read);
      if out == [] then Null else Obj(out)
    case _ => v
  }

  /** The first `n` elements, normalized; the numeric flag does not reach inside. */
  function Elements(es: seq<Json>, n: nat, read: Reader): (r: seq<Json>)
    requires n <= |es|
    ensures |r| == n
    ensures forall i :: 0 <= i < n ==> r[i] == Normalize(es[i], false, read)
    decreases es, n
  {
    if n == 0 then [] else Elements(es, n - 1, read) + [Normalize(es[n - 1], false, read)]
  }

  /** The parts among the first `n` that are not blank, by key. */
  function Kept(ps: seq<Part>, n: nat, read: Reader): seq<Part>
    requires n <= |ps|
    decreases ps, n
  {
    if n == 0 then []
    else
      var p, rest := ps[n - 1], Kept(ps, n - 1, read);
      var v := Normalize(p.value, false, read);
      if v == Null then rest else Insert(Part(p.key, v), rest)
  }

  function Insert(p: Part, s: seq<Part>): seq<Part> {
    if s == [] || Less(p.key, s[0].key) then [p] + s else [s[0]] + Insert(p, s[1..])
  }

  predicate Sorted(s: seq<Part>) {
    forall i, j :: 0 <= i < j < |s| ==> Less(s[i].key, s[j].key)
  }

  /** The place of `key` among the first `n` parts, or `n`. */
  function Find(ps: seq<Part>, n: nat, key: string): (i: nat)
    requires n <= |ps|
    ensures i <= n
    ensures i < n ==> ps[i].key == key
    ensures i == n ==> forall j :: 0 <= j < n ==> ps[j].key != key
  {
    if n == 0 then 0
    else if ps[n - 1].key == key then n - 1
    else
      var i := Find(ps, n - 1, key);
      if i < n - 1 then i else n
  }

  lemma {:induction false} FindAt(ps: seq<Part>, n: nat, i: nat)
    requires i < n <= |ps| && Distinct(ps)
    ensures Find(ps, n, ps[i].key) == i
  {}

  // ── Objects: sorted, without blank parts ───────────────────────────────────

  lemma {:induction false} InsertKeeps(p: Part, s: seq<Part>)
    requires Sorted(s) && forall i :: 0 <= i < |s| ==> s[i].key != p.key
    ensures Sorted(Insert(p, s))
    ensures forall x :: x in Insert(p, s) <==> x == p || x in s
  {
    if s == [] {
    } else if Less(p.key, s[0].key) {
      forall j | 0 <= j < |s| ensures Less(p.key, s[j].key) {
        if j > 0 { LessTransitive(p.key, s[0].key, s[j].key); }
      }
    } else {
      LessTotal(p.key, s[0].key);
      InsertKeeps(p, s[1..]);
      var rest := Insert(p, s[1..]);
      forall j | 0 <= j < |rest| ensures Less(s[0].key, rest[j].key) {
        assert rest[j] in rest;
      }
      assert s == [s[0]] + s[1..];
    }
  }

  lemma {:induction false} InsertAdds(p: Part, s: seq<Part>)
    ensures forall x :: x in Insert(p, s) <==> x == p || x in s
  {
    if s != [] && !Less(p.key, s[0].key) {
      InsertAdds(p, s[1..]);
      assert s == [s[0]] + s[1..];
    }
  }

  lemma {:induction false} KeptFrom(ps: seq<Part>, n: nat, read: Reader)
    requires n <= |ps| && Distinct(ps)
    ensures Sorted(Kept(ps, n, read))
    ensures forall x :: x in Kept(ps, n, read) ==>
              exists i :: 0 <= i < n && x.key == ps[i].key && x.value == Normalize(ps[i].value, false, read) != Null
  {
    if n > 0 {
      KeptFrom(ps, n - 1, read);
      var p, rest := ps[n - 1], Kept(ps, n - 1, read);
      var v := Normalize(p.value, false, read);
      forall i | 0 <= i < |rest| ensures rest[i].key != p.key {
        assert rest[i] in rest;
      }
      if v != Null {
        InsertKeeps(Part(p.key, v), rest);
      }
    }
  }

  lemma {:induction false} KeptHas(ps: seq<Part>, n: nat, i: nat, read: Reader)
    requires i < n <= |ps| && Normalize(ps[i].value, false, read) != Null
    ensures Part(ps[i].key, Normalize(ps[i].value, false, read)) in Kept(ps, n, read)
  {
    InsertAdds(Part(ps[n - 1].key, Normalize(ps[n - 1].value, false, read)), Kept(ps, n - 1, read));
    if i < n - 1 {
      KeptHas(ps, n - 1, i, read);
    }
  }

  /** What is kept: sorted, and exactly the parts that do not normalize to nothing. */
  lemma {:induction false} KeptShape(ps: seq<Part>, n: nat, read: Reader)
    requires n <= |ps| && Distinct(ps)
    ensures Sorted(Kept(ps, n, read))
    ensures forall x :: x in Kept(ps, n, read) ==>
              var i := Find(ps, n, x.key);
              i < n && x.value == Normalize(ps[i].value, false, read) != Null
    ensures forall i :: 0 <= i < n && Normalize(ps[i].value, false, read) != Null ==>
              Part(ps[i].key, Normalize(ps[i].value, false, read)) in Kept(ps, n, read)
  {
    KeptFrom(ps, n, read);
    forall x | x in Kept(ps, n, read)
      ensures var i := Find(ps, n, x.key);
              i < n && x.value == Normalize(ps[i].value, false, read) != Null
    {
      var i :| 0 <= i < n && x.key == ps[i].key && x.value == Normalize(ps[i].value, false, read) != Null;
      FindAt(ps, n, i);
    }
    forall i | 0 <= i < n && Normalize(ps[i].value, false, read) != Null
      ensures Part(ps[i].key, Normalize(ps[i].value, false, read)) in Kept(ps, n, read)
    {
      KeptHas(ps, n, i, read);
    }
  }

  lemma {:induction false} Holds(s: seq<Part>)
    ensures s == [] || s[0] in s
  {}

  /** A sorted list is determined by what is in it. */
  lemma {:induction false} SortedUnique(a: seq<Part>, b: seq<Part>)
    requires Sorted(a) && Sorted(b)
    requires forall x :: x in a <==> x in b
    ensures a == b
    decreases |a|
  {
    if a == [] {
      Holds(b);
    } else {
      assert a[0] in a;
      assert a[0] in b;
      assert b[0] in b;
      assert b[0] in a;
      if a[0] != b[0] {
        LessAsymmetric(a[0].key, b[0].key);
      }
      forall x ensures x in a[1..] <==> x in b[1..] {
        if x in a[1..] { Below(a, x); assert x in a; }
        if x in b[1..] { Below(b, x); assert x in b; }
      }
      SortedUnique(a[1..], b[1..]);
      assert a == [a[0]] + a[1..] && b == [b[0]] + b[1..];
    }
  }

  lemma {:induction false} Below(s: seq<Part>, x: Part)
    requires Sorted(s) && s != [] && x in s[1..]
    ensures Less(s[0].key, x.key) && x != s[0]
  {
    var i :| 1 <= i < |s| && s[i] == x;
    LessAsymmetric(s[0].key, x.key);
  }

  // ── What it means for two values to read the same ──────────────────────────

  /** Nothing was entered: a missing value, white space, or an object of such parts. */
  predicate Empty(v: Json) {
    match v
    case Null => true
    case Undefined => true
    case Str(s) => Blank(s)
    case Obj(ps) => forall i :: 0 <= i < |ps| ==> Empty(ps[i].value)
    case _ => false
  }

  /** Alike up to white space around strings, the order of keys and empty parts of objects. */
  predicate Alike(a: Json, b: Json)
    decreases a
  {
    if Empty(a) || Empty(b) then Empty(a) && Empty(b)
    else
      match a
      case Str(s) => b.Str? && Trim(s) == Trim(b.text)
      case Arr(es) =>
        b.Arr? && |es| == |b.elems| && forall i :: 0 <= i < |es| ==> Alike(es[i], b.elems[i])
      case Obj(ps) => b.Obj? && AlikeParts(ps, b.parts) && EmptyOutside(b.parts, ps)
      case _ => a == b
  }

  /** Each part of the first object is alike to the other's part of that key, or empty. */
  predicate AlikeParts(ps: seq<Part>, qs: seq<Part>)
    decreases ps
  {
    forall i :: 0 <= i < |ps| ==>
      var j := Find(qs, |qs|, ps[i].key);
      if j < |qs| then Alike(ps[i].value, qs[j].value) else Empty(ps[i].value)
  }

  predicate EmptyOutside(qs: seq<Part>, ps: seq<Part>) {
    forall j :: 0 <= j < |qs| && Find(ps, |ps|, qs[j].key) == |ps| ==> Empty(qs[j].value)
  }

  lemma {:induction false} TrimIsBlank(s: string)
    ensures Trim(s) == "" <==> Blank(s)
  {
    if Blank(s) {
      TrimBlank(s);
    }
    var left, right := TrimShape(s);
    assert Trim(s) == "" ==> s == left + right;
  }

  lemma {:induction false} EmptyIsNull(v: Json, numeric: bool, read: Reader)
    requires WellFormed(v)
    ensures Normalize(v, numeric, read) == Null <==> Empty(v)
  {
    match v
    case Str(s) => TrimIsBlank(s);
    case Obj(ps) =>
      forall i | 0 <= i < |ps| ensures Normalize(ps[i].value, false, read) == Null <==> Empty(ps[i].value) {
        EmptyIsNull(ps[i].value, false, read);
      }
      KeptShape(ps, |ps|, read);
      var out := Kept(ps, |ps|, read);
      if out != [] {
        assert out[0] in out;
        assert !Empty(v);
      }
    case _ =>
  }

  /** Two objects normalize alike when, key by key, their parts do. */
  lemma {:induction false} SameKept(ps: seq<Part>, qs: seq<Part>, read: Reader)
    requires Distinct(ps) && Distinct(qs)
    requires KeptIn(ps, qs, read) && KeptIn(qs, ps, read)
    ensures Kept(ps, |ps|, read) == Kept(qs, |qs|, read)
  {
    KeptShape(ps, |ps|, read);
    KeptShape(qs, |qs|, read);
    SortedUnique(Kept(ps, |ps|, read), Kept(qs, |qs|, read));
  }

  ghost predicate KeptIn(ps: seq<Part>, qs: seq<Part>, read: Reader) {
    forall i :: 0 <= i < |ps| && Normalize(ps[i].value, false, read) != Null ==>
      var j := Find(qs, |qs|, ps[i].key);
      j < |qs| && Normalize(qs[j].value, false, read) == Normalize(ps[i].value, false, read)
  }

  lemma {:induction false} KeptSame(ps: seq<Part>, qs: seq<Part>, read: Reader)
    requires Distinct(ps) && Distinct(qs)
    requires Kept(ps, |ps|, read) == Kept(qs, |qs|, read)
    ensures KeptIn(ps, qs, read)
  {
    KeptShape(ps, |ps|, read);
    KeptShape(qs, |qs|, read);
    forall i | 0 <= i < |ps| && Normalize(ps[i].value, false, read) != Null
      ensures var j := Find(qs, |qs|, ps[i].key);
              j < |qs| && Normalize(qs[j].value, false, read) == Normalize(ps[i].value, false, read)
    {
      assert Part(ps[i].key, Normalize(ps[i].value, false, read)) in Kept(qs, |qs|, read);
    }
  }

  /** Two values have one normal form exactly when they are alike. */
  lemma {:induction false} AlikeIsNormal(a: Json, b: Json, read: Reader)
    requires WellFormed(a) && WellFormed(b)
    ensures Normalize(a, false, read) == Normalize(b, false, read) <==> Alike(a, b)
    decreases a
  {
    EmptyIsNull(a, false, read);
    EmptyIsNull(b, false, read);
    if Empty(a) || Empty(b) {
    } else if a.Arr? && b.Arr? && |a.elems| == |b.elems| {
      var es, fs := a.elems, b.elems;
      forall i | 0 <= i < |es|
        ensures Normalize(es[i], false, read) == Normalize(fs[i], false, read) <==> Alike(es[i], fs[i])
      {
        AlikeIsNormal(es[i], fs[i], read);
      }
      var x, y := Elements(es, |es|, read), Elements(fs, |fs|, read);
      assert x == y <==> forall i :: 0 <= i < |es| ==> x[i] == y[i];
    } else if a.Obj? && b.Obj? {
      AlikeObjects(a.parts, b.parts, read);
    } else {
    }
  }

  lemma {:induction false} AlikeObjects(ps: seq<Part>, qs: seq<Part>, read: Reader)
    requires WellFormed(Obj(ps)) && WellFormed(Obj(qs))
    ensures Kept(ps, |ps|, read) == Kept(qs, |qs|, read) <==> AlikeParts(ps, qs) && EmptyOutside(qs, ps)
    decreases ps
  {
    forall i | 0 <= i < |ps| ensures Normalize(ps[i].value, false, read) == Null <==> Empty(ps[i].value) {
      EmptyIsNull(ps[i].value, false, read);
    }
    forall j | 0 <= j < |qs| ensures Normalize(qs[j].value, false, read) == Null <==> Empty(qs[j].value) {
      EmptyIsNull(qs[j].value, false, read);
    }
    forall i, j | 0 <= i < |ps| && 0 <= j < |qs|
      ensures Normalize(ps[i].value, false, read) == Normalize(qs[j].value, false, read)
              <==> Alike(ps[i].value, qs[j].value)
    {
      AlikeIsNormal(ps[i].value, qs[j].value, read);
    }
    if Kept(ps, |ps|, read) == Kept(qs, |qs|, read) {
      KeptSame(ps, qs, read);
      KeptSame(qs, ps, read);
      forall i | 0 <= i < |ps|
        ensures var j := Find(qs, |qs|, ps[i].key);
                if j < |qs| then Alike(ps[i].value, qs[j].value) else Empty(ps[i].value)
      {
        var j := Find(qs, |qs|, ps[i].key);
        if j < |qs| { FindAt(ps, |ps|, i); }
      }
    }
    if AlikeParts(ps, qs) && EmptyOutside(qs, ps) {
      forall j | 0 <= j < |qs| && Normalize(qs[j].value, false, read) != Null
        ensures var i := Find(ps, |ps|, qs[j].key);
                i < |ps| && Normalize(ps[i].value, false, read) == Normalize(qs[j].value, false, read)
      {
        FindAt(qs, |qs|, j);
      }
      SameKept(ps, qs, read);
    }
  }

  // ── The comparison as written: equal JSON texts ────────────────────────────

  /** A JSON text as its tokens; a string or number is one token. */
  datatype Token =
    | NullWord
    | BoolWord(flag: bool)
    | NumWord(number: real)
    | StrWord(text: string)
    | OpenArr | CloseArr | OpenObj | CloseObj | Comma | Colon

  predicate NoUndefined(v: Json) {
    match v
    case Undefined => false
    case Arr(es) => forall i :: 0 <= i < |es| ==> NoUndefined(es[i])
    case Obj(ps) => forall i :: 0 <= i < |ps| ==> NoUndefined(ps[i].value)
    case _ => true
  }

  /** `JSON.stringify(v)`. */
  function Print(v: Json): (ts: seq<Token>)
    requires NoUndefined(v)
    ensures ts != [] && !ts[0].Comma? && !ts[0].CloseArr? && !ts[0].CloseObj?
    decreases v
  {
    match v
    case Null => [NullWord]
    case Bool(b) => [BoolWord(b)]
    case Num(n) => [NumWord(n)]
    case Str(s) => [StrWord(s)]
    case Arr(es) => [OpenArr] + PrintElems(es, 0)
    case Obj(ps) => [OpenObj] + PrintParts(ps, 0)
  }

  function PrintElems(es: seq<Json>, i: nat): seq<Token>
    requires i <= |es| && NoUndefined(Arr(es))
    decreases es, |es| - i
  {
    if i == |es| then [CloseArr]
    else (if i > 0 then [Comma] else []) + (Print(es[i]) + PrintElems(es, i + 1))
  }

  function PrintParts(ps: seq<Part>, i: nat): seq<Token>
    requires i <= |ps| && NoUndefined(Obj(ps))
    decreases ps, |ps| - i
  {
    if i == |ps| then [CloseObj]
    else (if i > 0 then [Comma] else []) + (Named(ps[i]) + PrintParts(ps, i + 1))
  }

  function Named(p: Part): (ts: seq<Token>)
    requires NoUndefined(p.value)
    ensures ts != [] && ts[0] == StrWord(p.key)
    decreases p
  {
    [StrWord(p.key), Colon] + Print(p.value)
  }

  /** A printed value is read off the front of a text in one way only. */
  lemma {:induction false} PrintUnique(a: Json, b: Json, x: seq<Token>, y: seq<Token>)
    requires NoUndefined(a) && NoUndefined(b) && Print(a) + x == Print(b) + y
    ensures a == b && x == y
    decreases a
  {
    assert (Print(a) + x)[0] == Print(a)[0] && (Print(b) + y)[0] == Print(b)[0];
    assert (Print(a) + x)[1..] == Print(a)[1..] + x && (Print(b) + y)[1..] == Print(b)[1..] + y;
    assert a.Arr? || a.Obj? || Print(a)[1..] + x == x;
    assert b.Arr? || b.Obj? || Print(b)[1..] + y == y;
    if a.Arr? {
      ElemsUnique(a.elems, b.elems, 0, x, y);
    } else if a.Obj? {
      PartsUnique(a.parts, b.parts, 0, x, y);
    }
  }

  lemma {:induction false} Regroup(head: seq<Token>, a: seq<Token>, b: seq<Token>, x: seq<Token>)
    ensures (head + (a + b)) + x == head + (a + (b + x))
  {}

  lemma {:induction false} Cut(head: seq<Token>, x: seq<Token>, y: seq<Token>)
    requires head + x == head + y
    ensures x == y
  {
    assert x == (head + x)[|head|..] && y == (head + y)[|head|..];
  }

  lemma {:induction false} FirstOf(a: seq<Token>, x: seq<Token>)
    requires a != []
    ensures (a + x)[0] == a[0] && (a + x)[1..] == a[1..] + x
  {}

  lemma {:induction false} ElemsUnique(es: seq<Json>, fs: seq<Json>, i: nat, x: seq<Token>, y: seq<Token>)
    requires NoUndefined(Arr(es)) && NoUndefined(Arr(fs))
    requires i <= |es| && i <= |fs| && es[..i] == fs[..i]
    requires PrintElems(es, i) + x == PrintElems(fs, i) + y
    ensures es == fs && x == y
    decreases es, |es| - i
  {
    FirstOf(PrintElems(es, i), x);
    FirstOf(PrintElems(fs, i), y);
    if i == |es| || i == |fs| {
      assert [] + x == x && [] + y == y;
    } else {
      var comma := if i > 0 then [Comma] else [];
      var l, r := PrintElems(es, i + 1), PrintElems(fs, i + 1);
      Regroup(comma, Print(es[i]), l, x);
      Regroup(comma, Print(fs[i]), r, y);
      Cut(comma, Print(es[i]) + (l + x), Print(fs[i]) + (r + y));
      PrintUnique(es[i], fs[i], l + x, r + y);
      assert es[..i + 1] == es[..i] + [es[i]] && fs[..i + 1] == fs[..i] + [fs[i]];
      ElemsUnique(es, fs, i + 1, x, y);
    }
  }

  lemma {:induction false} PartsUnique(ps: seq<Part>, qs: seq<Part>, i: nat, x: seq<Token>, y: seq<Token>)
    requires NoUndefined(Obj(ps)) && NoUndefined(Obj(qs))
    requires i <= |ps| && i <= |qs| && ps[..i] == qs[..i]
    requires PrintParts(ps, i) + x == PrintParts(qs, i) + y
    ensures ps == qs && x == y
    decreases ps, |ps| - i
  {
    FirstOf(PrintParts(ps, i), x);
    FirstOf(PrintParts(qs, i), y);
    if i == |ps| || i == |qs| {
      assert [] + x == x && [] + y == y;
    } else {
      var comma := if i > 0 then [Comma] else [];
      var l, r := PrintParts(ps, i + 1), PrintParts(qs, i + 1);
      Regroup(comma, Named(ps[i]), l, x);
      Regroup(comma, Named(qs[i]), r, y);
      Cut(comma, Named(ps[i]) + (l + x), Named(qs[i]) + (r + y));
      NamedUnique(ps[i], qs[i], l + x, r + y);
      assert ps[..i + 1] == ps[..i] + [ps[i]] && qs[..i + 1] == qs[..i] + [qs[i]];
      PartsUnique(ps, qs, i + 1, x, y);
    }
  }

  lemma {:induction false} NamedUnique(p: Part, q: Part, x: seq<Token>, y: seq<Token>)
    requires NoUndefined(p.value) && NoUndefined(q.value) && Named(p) + x == Named(q) + y
    ensures p == q && x == y
    decreases p
  {
    var s, t := Print(p.value) + x, Print(q.value) + y;
    assert Named(p) + x == [StrWord(p.key), Colon] + s && Named(q) + y == [StrWord(q.key), Colon] + t;
    assert (Named(p) + x)[0] == StrWord(p.key) && (Named(q) + y)[0] == StrWord(q.key);
    Cut([StrWord(p.key), Colon], s, t);
    PrintUnique(p.value, q.value, x, y);
  }

  lemma {:induction false} NormalHasNoUndefined(v: Json, numeric: bool, read: Reader)
    ensures NoUndefined(Normalize(v, numeric, read))
    decreases v, 0
  {
    match v
    case Arr(es) =>
      forall i | 0 <= i < |es| { NormalHasNoUndefined(es[i], false, read); }
    case Obj(ps) =>
      KeptHasNoUndefined(ps, |ps|, read);
      var out := Kept(ps, |ps|, read);
      forall i | 0 <= i < |out| ensures NoUndefined(out[i].value) {
        assert out[i] in out;
      }
    case _ =>
  }

  lemma {:induction false} KeptHasNoUndefined(ps: seq<Part>, n: nat, read: Reader)
    requires n <= |ps|
    ensures forall x :: x in Kept(ps, n, read) ==> NoUndefined(x.value)
    decreases ps, n
  {
    if n > 0 {
      KeptHasNoUndefined(ps, n - 1, read);
      NormalHasNoUndefined(ps[n - 1].value, false, read);
      InsertAdds(Part(ps[n - 1].key, Normalize(ps[n - 1].value, false, read)), Kept(ps, n - 1, read));
    }
  }

  predicate SameAuditValue(a: Json, b: Json, numeric: bool, read: Reader) {
    NormalHasNoUndefined(a, numeric, read);
    NormalHasNoUndefined(b, numeric, read);
    Print(Normalize(a, numeric, read)) == Print(Normalize(b, numeric, read))
  }

  /** A text of a numeric column that reads as a finite number stands for that number. */
  function AsRead(v: Json, numeric: bool, read: Reader): Json {
    if numeric && v.Str? && !Blank(v.text) && read(Trim(v.text)).Some?
    then Num(read(Trim(v.text)).value) else v
  }

  /** The comparison answers yes exactly for values that read the same. */
  lemma {:induction false} SameIsAlike(a: Json, b: Json, numeric: bool, read: Reader)
    requires WellFormed(a) && WellFormed(b)
    ensures SameAuditValue(a, b, numeric, read)
            <==> Alike(AsRead(a, numeric, read), AsRead(b, numeric, read))
  {
    var c, d := AsRead(a, numeric, read), AsRead(b, numeric, read);
    if a.Str? { TrimIsBlank(a.text); }
    if b.Str? { TrimIsBlank(b.text); }
    var x, y := Normalize(a, numeric, read), Normalize(b, numeric, read);
    assert x == Normalize(c, false, read) && y == Normalize(d, false, read);
    AlikeIsNormal(c, d, read);
    NormalHasNoUndefined(a, numeric, read);
    NormalHasNoUndefined(b, numeric, read);
    if Print(x) == Print(y) {
      PrintUnique(x, y, [], []);
    }
  }

  // ── Idempotence ────────────────────────────────────────────────────────────

  lemma {:induction false} NormalizeTwice(v: Json, numeric: bool, read: Reader)
    requires WellFormed(v)
    ensures WellFormed(Normalize(v, numeric, read))
    ensures Normalize(Normalize(v, numeric, read), numeric, read) == Normalize(v, numeric, read)
  {
    match v
    case Str(s) => TrimIdempotent(s);
    case Arr(es) =>
      forall i | 0 <= i < |es|
        ensures var w := Normalize(es[i], false, read);
                WellFormed(w) && Normalize(w, false, read) == w
      {
        NormalizeTwice(es[i], false, read);
      }
      var x := Elements(es, |es|, read);
      assert Elements(x, |x|, read) == x;
    case Obj(ps) =>
      var out := Kept(ps, |ps|, read);
      KeptShape(ps, |ps|, read);
      forall i | 0 <= i < |out|
        ensures WellFormed(out[i].value) && out[i].value != Null
        ensures Normalize(out[i].value, false, read) == out[i].value
      {
        assert out[i] in out;
        NormalizeTwice(ps[Find(ps, |ps|, out[i].key)].value, false, read);
      }
      forall i, j | 0 <= i < j < |out| ensures out[i].key != out[j].key {
        LessAsymmetric(out[i].key, out[j].key);
      }
      NormalIsKept(out, read);
    case _ =>
  }

  lemma {:induction false} NormalIsKept(out: seq<Part>, read: Reader)
    requires Sorted(out) && Distinct(out)
    requires forall i :: 0 <= i < |out| ==> out[i].value != Null && Normalize(out[i].value, false, read) == out[i].value
    ensures Kept(out, |out|, read) == out
  {
    KeptShape(out, |out|, read);
    var again := Kept(out, |out|, read);
    forall x | x in out ensures x in again {
      var i :| 0 <= i < |out| && out[i] == x;
      assert x == Part(out[i].key, Normalize(out[i].value, false, read));
    }
    SortedUnique(again, out);
  }

  // ── What nobody changed, at any depth ──────────────────────────────────────

  /** A place inside a value. */
  datatype Place =
    | Here
    | InArr(before: seq<Json>, elem: Place, after: seq<Json>)
    | InObj(first: seq<Part>, key: string, part: Place, rest: seq<Part>)

  function Put(place: Place, v: Json): Json {
    match place
    case Here => v
    case InArr(before, inner, after) => Arr(before + [Put(inner, v)] + after)
    case InObj(first, key, inner, rest) => Obj(first + [Part(key, Put(inner, v))] + rest)
  }

  /** What reads the same reads the same wherever it stands. */
  lemma {:induction false} AlikeInside(place: Place, a: Json, b: Json)
    requires WellFormed(a) && WellFormed(b)
    requires WellFormed(Put(place, a)) && WellFormed(Put(place, b)) && Alike(a, b)
    ensures Alike(Put(place, a), Put(place, b))
  {
    var read: Reader := t => None;
    AlikeIsNormal(a, b, read);
    NormalInside(place, a, b, read);
    AlikeIsNormal(Put(place, a), Put(place, b), read);
  }

  lemma {:induction false} NormalInside(place: Place, a: Json, b: Json, read: Reader)
    requires Normalize(a, false, read) == Normalize(b, false, read)
    ensures Normalize(Put(place, a), false, read) == Normalize(Put(place, b), false, read)
  {
    match place
    case Here =>
    case InArr(before, inner, after) =>
      NormalInside(inner, a, b, read);
      SwapElem(before, Put(inner, a), Put(inner, b), after, read);
    case InObj(first, key, inner, rest) =>
      NormalInside(inner, a, b, read);
      SwapPart(first, key, Put(inner, a), Put(inner, b), rest, read);
  }

  lemma {:induction false} SwapElem(before: seq<Json>, a: Json, b: Json, after: seq<Json>, read: Reader)
    requires Normalize(a, false, read) == Normalize(b, false, read)
    ensures Normalize(Arr(before + [a] + after), false, read) == Normalize(Arr(before + [b] + after), false, read)
  {
    var es, fs := before + [a] + after, before + [b] + after;
    forall i | 0 <= i < |es| ensures Normalize(es[i], false, read) == Normalize(fs[i], false, read) {
      assert i != |before| ==> es[i] == fs[i];
    }
    assert Elements(es, |es|, read) == Elements(fs, |fs|, read);
  }

  lemma {:induction false} SwapPart(first: seq<Part>, key: string, a: Json, b: Json, rest: seq<Part>, read: Reader)
    requires Normalize(a, false, read) == Normalize(b, false, read)
    ensures Normalize(Obj(first + [Part(key, a)] + rest), false, read)
            == Normalize(Obj(first + [Part(key, b)] + rest), false, read)
  {
    var ps, qs := first + [Part(key, a)] + rest, first + [Part(key, b)] + rest;
    forall i | 0 <= i < |ps|
      ensures ps[i].key == qs[i].key
      ensures Normalize(ps[i].value, false, read) == Normalize(qs[i].value, false, read)
    {
      assert i != |first| ==> ps[i] == qs[i];
    }
    KeptOneByOne(ps, qs, |ps|, read);
  }

  lemma {:induction false} KeptOneByOne(ps: seq<Part>, qs: seq<Part>, n: nat, read: Reader)
    requires n <= |ps| == |qs|
    requires forall i :: 0 <= i < n ==> ps[i].key == qs[i].key
    requires forall i :: 0 <= i < n ==> Normalize(ps[i].value, false, read) == Normalize(qs[i].value, false, read)
    ensures Kept(ps, n, read) == Kept(qs, n, read)
  {
    if n > 0 {
      KeptOneByOne(ps, qs, n - 1, read);
    }
  }

  lemma {:induction false} SpaceIsInvisible(left: string, s: string, right: string)
    requires Blank(left) && Blank(right)
    ensures Alike(Str(left + s + right), Str(s))
  {
    TrimAround(left, s, right);
    TrimIsBlank(s);
    TrimIsBlank(left + s + right);
  }

  lemma {:induction false} KeyOrderIsInvisible(ps: seq<Part>, qs: seq<Part>)
    requires WellFormed(Obj(ps)) && WellFormed(Obj(qs)) && forall x :: x in ps <==> x in qs
    ensures Alike(Obj(ps), Obj(qs))
  {
    var read: Reader := t => None;
    SamePartsKept(ps, qs, read);
    SamePartsKept(qs, ps, read);
    SameKept(ps, qs, read);
    AlikeIsNormal(Obj(ps), Obj(qs), read);
  }

  lemma {:induction false} SamePartsKept(ps: seq<Part>, qs: seq<Part>, read: Reader)
    requires Distinct(ps) && Distinct(qs) && forall x :: x in ps <==> x in qs
    ensures KeptIn(ps, qs, read)
  {
    forall i | 0 <= i < |ps| && Normalize(ps[i].value, false, read) != Null
      ensures var j := Find(qs, |qs|, ps[i].key);
              j < |qs| && Normalize(qs[j].value, false, read) == Normalize(ps[i].value, false, read)
    {
      assert ps[i] in qs;
      var j :| 0 <= j < |qs| && qs[j] == ps[i];
      FindAt(qs, |qs|, j);
    }
  }

  lemma {:induction false} BlankPartIsInvisible(first: seq<Part>, key: string, blank: Json, rest: seq<Part>)
    requires WellFormed(Obj(first + rest)) && WellFormed(Obj(first + [Part(key, blank)] + rest))
    requires Empty(blank)
    ensures Alike(Obj(first + [Part(key, blank)] + rest), Obj(first + rest))
  {
    var read: Reader := t => None;
    var ps, qs := first + [Part(key, blank)] + rest, first + rest;
    assert ps[|first|] == Part(key, blank);
    EmptyIsNull(blank, false, read);
    forall i | 0 <= i < |ps| && Normalize(ps[i].value, false, read) != Null
      ensures var j := Find(qs, |qs|, ps[i].key);
              j < |qs| && Normalize(qs[j].value, false, read) == Normalize(ps[i].value, false, read)
    {
      var j := if i < |first| then i else i - 1;
      assert qs[j] == ps[i];
      FindAt(qs, |qs|, j);
    }
    forall j | 0 <= j < |qs| && Normalize(qs[j].value, false, read) != Null
      ensures var i := Find(ps, |ps|, qs[j].key);
              i < |ps| && Normalize(ps[i].value, false, read) == Normalize(qs[j].value, false, read)
    {
      var i := if j < |first| then j else j + 1;
      assert ps[i] == qs[j];
      FindAt(ps, |ps|, i);
    }
    SameKept(ps, qs, read);
    AlikeIsNormal(Obj(ps), Obj(qs), read);
  }

  // ── The copy a snapshot keeps ─────────────────────────────────────────────

  /** `JSON.parse(JSON.stringify(v))`: undefined parts of objects go, undefined elements become null. */
  function Copied(v: Json): Json
    decreases v
  {
    match v
    case Undefined => Null
    case Arr(es) => Arr(CopiedElems(es, |es|))
    case Obj(ps) => Obj(CopiedParts(ps, |ps|))
    case _ => v
  }

  function CopiedElems(es: seq<Json>, n: nat): (r: seq<Json>)
    requires n <= |es|
    ensures |r| == n && forall i :: 0 <= i < n ==> r[i] == Copied(es[i])
    decreases es, n
  {
    if n == 0 then [] else CopiedElems(es, n - 1) + [Copied(es[n - 1])]
  }

  function CopiedParts(ps: seq<Part>, n: nat): seq<Part>
    requires n <= |ps|
    decreases ps, n
  {
    if n == 0 then []
    else
      var rest := CopiedParts(ps, n - 1);
      if ps[n - 1].value.Undefined? then rest else rest + [Part(ps[n - 1].key, Copied(ps[n - 1].value))]
  }

  lemma {:induction false} KeptPrefix(ps: seq<Part>, p: Part, n: nat, read: Reader)
    requires n <= |ps|
    ensures Kept(ps + [p], n, read) == Kept(ps, n, read)
  {
    if n > 0 {
      KeptPrefix(ps, p, n - 1, read);
    }
  }

  /** The copy reads as the value it was made from. */
  lemma {:induction false} CopyReadsTheSame(v: Json, numeric: bool, read: Reader)
    ensures Normalize(Copied(v), numeric, read) == Normalize(v, numeric, read)
    decreases v, 0
  {
    match v
    case Arr(es) =>
      var cs := CopiedElems(es, |es|);
      forall i | 0 <= i < |es| ensures Normalize(cs[i], false, read) == Normalize(es[i], false, read) {
        CopyReadsTheSame(es[i], false, read);
      }
      assert Elements(cs, |cs|, read) == Elements(es, |es|, read);
    case Obj(ps) => CopiedKept(ps, |ps|, read);
    case _ =>
  }

  lemma {:induction false} CopiedKept(ps: seq<Part>, n: nat, read: Reader)
    requires n <= |ps|
    ensures var cs := CopiedParts(ps, n); Kept(cs, |cs|, read) == Kept(ps, n, read)
    decreases ps, n
  {
    if n > 0 {
      var rest, p := CopiedParts(ps, n - 1), ps[n - 1];
      CopiedKept(ps, n - 1, read);
      CopyReadsTheSame(p.value, false, read);
      if !p.value.Undefined? {
        KeptPrefix(rest, Part(p.key, Copied(p.value)), |rest|, read);
      }
    }
  }

  /** Nothing in the value is undefined: it is what JSON can say. */
  predicate Definite(v: Json) {
    match v
    case Undefined => false
    case Arr(es) => forall i :: 0 <= i < |es| ==> Definite(es[i])
    case Obj(ps) => forall i :: 0 <= i < |ps| ==> Definite(ps[i].value)
    case _ => true
  }

  /** The copy is always JSON, and a value that is JSON already is copied as it is. */
  lemma {:induction false} CopyIsJson(v: Json)
    ensures Definite(Copied(v)) && (Definite(v) ==> Copied(v) == v)
    decreases v, 0
  {
    match v
    case Arr(es) =>
      forall i | 0 <= i < |es| ensures Definite(Copied(es[i])) && (Definite(es[i]) ==> Copied(es[i]) == es[i]) {
        CopyIsJson(es[i]);
      }
      assert Definite(v) ==> CopiedElems(es, |es|) == es;
    case Obj(ps) =>
      CopiedPartsAreJson(ps, |ps|);
      var cs := CopiedParts(ps, |ps|);
      assert Copied(v) == Obj(cs) && ps[..|ps|] == ps;
      assert DefiniteParts(cs, |cs|);
      assert Definite(v) ==> DefiniteParts(ps, |ps|);
    case _ =>
  }

  predicate DefiniteParts(ps: seq<Part>, n: nat)
    requires n <= |ps|
  {
    forall i :: 0 <= i < n ==> Definite(ps[i].value)
  }

  lemma {:induction false} CopiedPartsAreJson(ps: seq<Part>, n: nat)
    requires n <= |ps|
    ensures var cs := CopiedParts(ps, n); DefiniteParts(cs, |cs|) && (DefiniteParts(ps, n) ==> cs == ps[..n])
    decreases ps, n
  {
    if n > 0 {
      CopiedPartsAreJson(ps, n - 1);
      var rest, p := CopiedParts(ps, n - 1), ps[n - 1];
      CopyIsJson(p.value);
      assert ps[..n] == ps[..n - 1] + [p];
      if !p.value.Undefined? {
        var cs := rest + [Part(p.key, Copied(p.value))];
        assert CopiedParts(ps, n) == cs;
        assert DefiniteParts(ps, n) ==> DefiniteParts(ps, n - 1) && Definite(p.value);
      }
    }
  }

  // ── The loop that builds the normal form ───────────────────────────────────

  /** `Object.keys(value).sort()`, with the values beside the keys. */
  function SortParts(ps: seq<Part>, n: nat): seq<Part>
    requires n <= |ps|
    decreases n
  {
    if n == 0 then [] else Insert(ps[n - 1], SortParts(ps, n - 1))
  }

  lemma {:induction false} SortPartsShape(ps: seq<Part>, n: nat)
    requires n <= |ps| && Distinct(ps)
    ensures Sorted(SortParts(ps, n))
    ensures forall x :: x in SortParts(ps, n) <==> x in ps[..n]
  {
    if n > 0 {
      SortPartsShape(ps, n - 1);
      var s := SortParts(ps, n - 1);
      forall i | 0 <= i < |s| ensures s[i].key != ps[n - 1].key {
        assert s[i] in s;
      }
      InsertKeeps(ps[n - 1], s);
      assert ps[..n] == ps[..n - 1] + [ps[n - 1]];
    }
  }

  /** Sorting first and dropping blank parts afterwards comes to the same. */
  lemma {:induction false} SortedFirst(ps: seq<Part>, read: Reader)
    requires Distinct(ps)
    ensures var s := SortParts(ps, |ps|);
            && Sorted(s) && Distinct(s) && (forall i :: 0 <= i < |s| ==> s[i] in ps)
            && Kept(s, |s|, read) == Kept(ps, |ps|, read)
  {
    var s := SortParts(ps, |ps|);
    SortPartsShape(ps, |ps|);
    assert ps[..|ps|] == ps;
    forall i, j | 0 <= i < j < |s| ensures s[i].key != s[j].key {
      LessAsymmetric(s[i].key, s[j].key);
    }
    SamePartsKept(ps, s, read);
    SamePartsKept(s, ps, read);
    SameKept(ps, s, read);
  }

  /** On sorted parts each kept part goes to the end. */
  lemma {:induction false} KeptAppends(s: seq<Part>, n: nat, read: Reader)
    requires 0 < n <= |s| && Sorted(s) && Distinct(s)
    ensures var v, rest := Normalize(s[n - 1].value, false, read), Kept(s, n - 1, read);
            Kept(s, n, read) == if v == Null then rest else rest + [Part(s[n - 1].key, v)]
  {
    var v, rest := Normalize(s[n - 1].value, false, read), Kept(s, n - 1, read);
    KeptShape(s, n - 1, read);
    forall x | x in rest ensures Less(x.key, s[n - 1].key) {
      var i := Find(s, n - 1, x.key);
    }
    InsertLast(Part(s[n - 1].key, v), rest);
  }

  lemma {:induction false} InsertLast(p: Part, s: seq<Part>)
    requires forall x :: x in s ==> Less(x.key, p.key)
    ensures Insert(p, s) == s + [p]
  {
    if s != [] {
      LessAsymmetric(s[0].key, p.key);
      InsertLast(p, s[1..]);
      assert s + [p] == [s[0]] + (s[1..] + [p]);
    }
  }

  method NormalizeAuditValue(v: Json, numeric: bool, read: Reader) returns (r: Json)
    requires WellFormed(v)
    ensures r == Normalize(v, numeric, read)
    decreases v
  {
    match v {
      case Null => return Null;
      case Undefined => return Null;
      case Str(s) =>
        var text := Trim(s);
        if text == "" { return Null; }
        if numeric {
          var n := read(text);
          return if n.Some? then Num(n.value) else Str(text);
        }
        return Str(text);
      case Arr(es) =>
        var out: seq<Json> := [];
        for i := 0 to |es|
          invariant out == Elements(es, i, read)
        {
          var w := NormalizeAuditValue(es[i], false, read);
          out := out + [w];
        }
        return Arr(out);
      case Obj(ps) =>
        var sorted := SortParts(ps, |ps|);
        SortedFirst(ps, read);
        var out: seq<Part> := [];
        for i := 0 to |sorted|
          invariant out == Kept(sorted, i, read)
        {
          assert sorted[i] in ps;
          var w := NormalizeAuditValue(sorted[i].value, false, read);
          KeptAppends(sorted, i + 1, read);
          if w != Null {
            out := out + [Part(sorted[i].key, w)];
          }
        }
        return if out != [] then Obj(out) else Null;
      case _ => return v;
    }
  }
}
