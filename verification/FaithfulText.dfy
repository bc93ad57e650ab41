/**
 * Texts as the pipeline assumes them do exist: one injective way of printing every JSON value and every
 * instant, read back by looking for what was printed. It stands for the language's own
 * JSON.stringify, JSON.parse, toISOString and Date, of which only the round trip is used.
 */
module FaithfulText {
  import opened Prelude
  import opened Redaction
  import opened StreamCodec

  // ------------------------------------------------------------------------------ printing, self-delimited

  function PrintNat(n: nat): string {
    if n == 0 then "." else "1" + PrintNat(n - 1)
  }

  function PrintStr(s: string): string {
    if s == "" then "." else "c" + [s[0]] + PrintStr(s[1..])
  }

  /** The entries of an object come in any fixed order. */
  ghost function Print(v: Json): string
    decreases v, 1
  {
    match v
    case Null => "z"
    case Bool(b) => if b then "t" else "f"
    case Num(n) => "n" + PrintNat(n)
    case Str(s) => "s" + PrintStr(s)
    case Arr(items) => "a" + PrintItems(v, items)
    case Obj(entries) => "o" + PrintEntries(v, entries.Keys)
  }

  ghost function PrintItems(v: Json, rest: seq<Json>): string
    requires v.Arr? && |rest| <= |v.items| && rest == v.items[|v.items| - |rest|..]
    decreases v, 0, |rest|
  {
    if rest == [] then "."
    else
      assert rest[0] == v.items[|v.items| - |rest|];
      "," + Print(rest[0]) + PrintItems(v, rest[1..])
  }

  ghost function PrintEntries(v: Json, keys: set<string>): string
    requires v.Obj? && keys <= v.entries.Keys
    decreases v, 0, |keys|
  {
    if keys == {} then "."
    else
      var k :| k in keys;
      "," + PrintStr(k) + Print(v.entries[k]) + PrintEntries(v, keys - {k})
  }

  // ----------------------------------------------------------------------- what was printed can be told

  lemma {:induction false} NatTold(m: nat, n: nat, x: string, y: string)
    requires PrintNat(m) + x == PrintNat(n) + y
    ensures m == n && x == y
  {
    Heads(PrintNat(m), x, PrintNat(n), y);
    if m > 0 && n > 0 {
      Tails("1", PrintNat(m - 1), x);
      Tails("1", PrintNat(n - 1), y);
      NatTold(m - 1, n - 1, x, y);
    } else if m == 0 && n == 0 {
      assert x == ("." + x)[1..] && y == ("." + y)[1..];
    }
  }

  /** Two printed texts that begin alike begin with the same character. */
  lemma Heads(a: string, x: string, b: string, y: string)
    requires a != "" && b != "" && a + x == b + y
    ensures a[0] == b[0]
  {
    assert (a + x)[0] == a[0] && (b + y)[0] == b[0];
  }

  lemma Tails(head: string, a: string, x: string)
    ensures (head + a + x)[|head|..] == a + x
    ensures head + a + x == head + (a + x)
  {
  }

  lemma {:induction false} StrTold(s: string, t: string, x: string, y: string)
    requires PrintStr(s) + x == PrintStr(t) + y
    ensures s == t && x == y
  {
    Heads(PrintStr(s), x, PrintStr(t), y);
    if s != "" && t != "" {
      Tails("c" + [s[0]], PrintStr(s[1..]), x);
      Tails("c" + [t[0]], PrintStr(t[1..]), y);
      assert (PrintStr(s) + x)[1] == s[0] && (PrintStr(t) + y)[1] == t[0];
      StrTold(s[1..], t[1..], x, y);
      assert s == [s[0]] + s[1..] && t == [t[0]] + t[1..];
    } else if s == "" && t == "" {
      assert x == ("." + x)[1..] && y == ("." + y)[1..];
    }
  }

  lemma {:induction false} Told(v: Json, w: Json, x: string, y: string)
    requires Print(v) + x == Print(w) + y
    ensures v == w && x == y
    decreases v, 1
  {
    Heads(Print(v), x, Print(w), y);
    match v {
      case Num(n) =>
        Tails("n", PrintNat(n), x);
        Tails("n", PrintNat(w.n), y);
        NatTold(n, w.n, x, y);
      case Str(s) =>
        Tails("s", PrintStr(s), x);
        Tails("s", PrintStr(w.s), y);
        StrTold(s, w.s, x, y);
      case Arr(items) =>
        assert items == items[|items| - |items|..] && w.items == w.items[|w.items| - |w.items|..];
        Tails("a", PrintItems(v, items), x);
        Tails("a", PrintItems(w, w.items), y);
        ItemsTold(v, items, w, w.items, x, y);
      case Obj(entries) =>
        Tails("o", PrintEntries(v, entries.Keys), x);
        Tails("o", PrintEntries(w, w.entries.Keys), y);
        EntriesTold(v, entries.Keys, w, w.entries.Keys, x, y);
        assert entries == w.entries;
      case _ =>
        assert x == (Print(v) + x)[1..] && y == (Print(w) + y)[1..];
    }
  }

  lemma {:induction false} ItemsTold(v: Json, a: seq<Json>, w: Json, b: seq<Json>, x: string, y: string)
    requires v.Arr? && |a| <= |v.items| && a == v.items[|v.items| - |a|..]
    requires w.Arr? && |b| <= |w.items| && b == w.items[|w.items| - |b|..]
    requires PrintItems(v, a) + x == PrintItems(w, b) + y
    ensures a == b && x == y
    decreases v, 0, |a|
  {
    Heads(PrintItems(v, a), x, PrintItems(w, b), y);
    if a != [] && b != [] {
      assert a[0] == v.items[|v.items| - |a|] && b[0] == w.items[|w.items| - |b|];
      var restA, restB := PrintItems(v, a[1..]), PrintItems(w, b[1..]);
      Split3(",", Print(a[0]), restA, x);
      Split3(",", Print(b[0]), restB, y);
      Told(a[0], b[0], restA + x, restB + y);
      ItemsTold(v, a[1..], w, b[1..], x, y);
      assert a == [a[0]] + a[1..] && b == [b[0]] + b[1..];
    } else if a == [] && b == [] {
      assert x == ("." + x)[1..] && y == ("." + y)[1..];
    }
  }

  lemma Split3(head: string, a: string, b: string, x: string)
    ensures (head + a + b + x)[|head|..] == a + (b + x)
  {
  }

  lemma {:induction false} EntriesTold(v: Json, ks: set<string>, w: Json, ls: set<string>, x: string, y: string)
    requires v.Obj? && ks <= v.entries.Keys && w.Obj? && ls <= w.entries.Keys
    requires PrintEntries(v, ks) + x == PrintEntries(w, ls) + y
    ensures ks == ls && x == y && forall k :: k in ks ==> v.entries[k] == w.entries[k]
    decreases v, 0, |ks|
  {
    Heads(PrintEntries(v, ks), x, PrintEntries(w, ls), y);
    if ks != {} && ls != {} {
      var k :| k in ks && PrintEntries(v, ks) == "," + PrintStr(k) + Print(v.entries[k]) + PrintEntries(v, ks - {k});
      var l :| l in ls && PrintEntries(w, ls) == "," + PrintStr(l) + Print(w.entries[l]) + PrintEntries(w, ls - {l});
      var restV, restW := PrintEntries(v, ks - {k}), PrintEntries(w, ls - {l});
      Split4(",", PrintStr(k), Print(v.entries[k]), restV, x);
      Split4(",", PrintStr(l), Print(w.entries[l]), restW, y);
      StrTold(k, l, Print(v.entries[k]) + (restV + x), Print(w.entries[l]) + (restW + y));
      Told(v.entries[k], w.entries[l], restV + x, restW + y);
      EntriesTold(v, ks - {k}, w, ls - {l}, x, y);
      assert ks == (ks - {k}) + {k} && ls == (ls - {l}) + {l};
    } else if ks == {} && ls == {} {
      assert x == ("." + x)[1..] && y == ("." + y)[1..];
    }
  }

  lemma Split4(head: string, a: string, b: string, c: string, x: string)
    ensures (head + a + b + c + x)[|head|..] == a + (b + (c + x))
  {
  }

  // ---------------------------------------------------------------------------------------- reading back

  ghost function Parse(s: string): Option<Json> {
    if v :| Print(v) == s then Some(v) else None
  }

  function PrintInstant(d: Instant): string {
    PrintNat(8_640_000_000_000_000 + d)
  }

  ghost function ParseInstant(s: string): Option<Instant> {
    if d: Instant :| PrintInstant(d) == s then Some(d) else None
  }

  lemma ParsesBack(v: Json)
    ensures Parse(Print(v)) == Some(v)
  {
    var w :| Print(w) == Print(v) && Parse(Print(v)) == Some(w);
    Told(v, w, "", "");
  }

  lemma InstantsTold(d: Instant, e: Instant)
    requires PrintInstant(d) == PrintInstant(e)
    ensures d == e
  {
    var m: nat, n: nat := 8_640_000_000_000_000 + d, 8_640_000_000_000_000 + e;
    assert PrintInstant(d) == PrintNat(m) && PrintInstant(e) == PrintNat(n);
    hide PrintInstant;
    NatTold(m, n, "", "");
  }

  lemma ParsesInstantBack(d: Instant)
    ensures ParseInstant(PrintInstant(d)) == Some(d)
  {
    var e: Instant :| PrintInstant(e) == PrintInstant(d) && ParseInstant(PrintInstant(d)) == Some(e);
    InstantsTold(d, e);
  }

  /** There are texts that give back every value and every instant. */
  lemma FaithfulExists()
    ensures exists t: Text :: Faithful(t)
  {
    var t := Text(v => Print(v), s => Parse(s), (d: Instant) => PrintInstant(d), s => ParseInstant(s));
    forall v: Json ensures t.parse(t.stringify(v)) == Some(v) {
      ParsesBack(v);
    }
    forall d: Instant ensures t.fromIso(t.toIso(d)) == Some(d) {
      ParsesInstantBack(d);
    }
    assert Faithful(t);
  }
}
