/**
 * Redaction of sensitive fields before a payload is stored in the audit journal
 * (src/audit/domain/services/redaction.ts).
 */
module Redaction {
  import opened Prelude

  /**
   * A number that can be parsed from JSON, by the 64 bits of its binary64 form: every finite one, save
   * the negative zero, which is printed as zero.
   */
  type Binary64 = bits: nat |
    bits < 0x1_0000_0000_0000_0000 && bits / 0x10_0000_0000_0000 % 0x800 != 0x7FF && bits != 0x8000_0000_0000_0000

  /** A parsed JSON value. Object entries are unordered, as in a jsonb column. */
  datatype Json =
    | Null
    | Bool(b: bool)
    | Num(n: Binary64)
    | Str(s: string)
    | Arr(items: seq<Json>)
    | Obj(entries: map<string, Json>)

  const DEPTH_MAX: nat := 6
  const MARKER: Json := Str("[REDACTED]")
  const SENSITIVE_NAMES: set<string> := {
    "password", "passwordhash", "motdepasse", "token", "refreshtoken", "accesstoken", "code",
    "secret", "hash", "otp", "cvv", "cardnumber", "numerocarte", "ssn", "nir"
  }

  /**
   * The one own key that a plain assignment `result[key] = value` does not create: it runs the
   * prototype setter instead, so the entry is absent from the redacted object.
   */
  const PROTO: string := "__proto__"

  /**
   * Lower-casing of one character, exact as far as a name of SENSITIVE_NAMES can tell: besides the
   * capital letters, the Kelvin sign is the only character whose lower case is one ASCII letter.
   */
  function Lower(c: char): char {
    if 'A' <= c <= 'Z' then (c as int + 32) as char
    else if c == '\U{212A}' then 'k'
    else c
  }

  /** Lower case, without underscores and hyphens. */
  function Normalise(key: string): string {
    if key == "" then ""
    else (if key[0] == '_' || key[0] == '-' then "" else [Lower(key[0])]) + Normalise(key[1..])
  }

  predicate Sensitive(key: string) {
    Normalise(key) in SENSITIVE_NAMES
  }

  /** A separator anywhere in a key, or the case of any of its letters, makes no difference. */
  lemma {:induction false} SpellingIgnored(before: string, c: char, after: string)
    ensures c in "_-" ==> Normalise(before + [c] + after) == Normalise(before + after)
    ensures c !in "_-" ==> Normalise(before + [c] + after) == Normalise(before + [Lower(c)] + after)
    decreases |before|
  {
    if before == "" {
      assert "" + [c] + after == [c] + after && "" + after == after;
      assert ([c] + after)[1..] == after && ([Lower(c)] + after)[1..] == after;
      assert "" + [Lower(c)] + after == [Lower(c)] + after;
    } else {
      SpellingIgnored(before[1..], c, after);
      assert (before + [c] + after)[1..] == before[1..] + [c] + after;
      assert (before + [Lower(c)] + after)[1..] == before[1..] + [Lower(c)] + after;
      assert (before + after)[1..] == before[1..] + after;
    }
  }

  /** A key without separator or capital is its own normal form. */
  lemma {:induction false} PlainKeyIsNormal(key: string)
    requires forall i :: 0 <= i < |key| ==> key[i] !in "_-" && Lower(key[i]) == key[i]
    ensures Normalise(key) == key
  {
    if key != "" {
      PlainKeyIsNormal(key[1..]);
    }
  }

  /** An ASCII capital may be replaced by the small letter 32 places further on, anywhere in a key. */
  lemma CapitalsIgnored(before: string, c: char, after: string)
    requires 'A' <= c <= 'Z'
    ensures Normalise(before + [c] + after) == Normalise(before + [(c as int + 32) as char] + after)
    ensures Sensitive(before + [c] + after) <==> Sensitive(before + [(c as int + 32) as char] + after)
  {
    SpellingIgnored(before, c, after);
  }

  /** The character stands for a letter of a name: itself, the capital 32 places before it, or the Kelvin sign. */
  predicate StandsFor(c: char, letter: char) {
    c == letter || ('A' <= c <= 'Z' && letter as int == c as int + 32) || (c == '\U{212A}' && letter == 'k')
  }

  /** The key is the name letter by letter, but for separators and the case of letters. */
  predicate Spells(key: string, name: string) {
    if key == "" then name == ""
    else if key[0] == '_' || key[0] == '-' then Spells(key[1..], name)
    else name != "" && StandsFor(key[0], name[0]) && Spells(key[1..], name[1..])
  }

  lemma StandsForIff(c: char, letter: char)
    requires 'a' <= letter <= 'z'
    ensures Lower(c) == letter <==> StandsFor(c, letter)
  {
  }

  lemma HeadAndTail(c: char, rest: string, name: string)
    ensures [c] + rest == name <==> name != "" && c == name[0] && rest == name[1..]
  {
    assert ([c] + rest)[1..] == rest;
    if name != "" { assert name == [name[0]] + name[1..]; }
  }

  lemma {:induction false} NormaliseIff(key: string, name: string)
    requires forall i :: 0 <= i < |name| ==> 'a' <= name[i] <= 'z'
    ensures Normalise(key) == name <==> Spells(key, name)
  {
    hide Lower;
    hide StandsFor;
    if key == "" {
    } else if key[0] == '_' || key[0] == '-' {
      NormaliseIff(key[1..], name);
    } else {
      HeadAndTail(Lower(key[0]), Normalise(key[1..]), name);
      if name != "" {
        StandsForIff(key[0], name[0]);
        NormaliseIff(key[1..], name[1..]);
      }
    }
  }

  predicate SpellsSensitiveName(key: string, name: string) {
    && name in {"password", "passwordhash", "motdepasse", "token", "refreshtoken", "accesstoken", "code",
                "secret", "hash", "otp", "cvv", "cardnumber", "numerocarte", "ssn", "nir"}
    && Spells(key, name)
  }

  /** The keys that are redacted are the spellings of the fifteen names, and no others. */
  lemma SensitiveIff(key: string)
    ensures Sensitive(key) <==> exists name :: SpellsSensitiveName(key, name)
  {
    forall name | name in SENSITIVE_NAMES ensures Normalise(key) == name <==> Spells(key, name) {
      NormaliseIff(key, name);
    }
    hide Normalise;
    hide Spells;
    if Sensitive(key) {
      assert SpellsSensitiveName(key, Normalise(key));
    } else {
      forall name ensures !SpellsSensitiveName(key, name) {
      }
    }
  }

  function RedactValue(v: Json, depth: nat): Json
    decreases v
  {
    if depth >= DEPTH_MAX then MARKER
    else match v
      case Arr(items) => Arr(seq(|items|, i requires 0 <= i < |items| => RedactValue(items[i], depth + 1)))
      case Obj(entries) =>
        Obj(map k | k in entries && k != PROTO ::
              if Sensitive(k) then MARKER else RedactValue(entries[k], depth + 1))
      case _ => v
  }

  function RedactObject(payload: map<string, Json>): map<string, Json> {
    RedactValue(Obj(payload), 0).entries
  }

  lemma RedactObjectIsRedactValue(payload: map<string, Json>)
    ensures Obj(RedactObject(payload)) == RedactValue(Obj(payload), 0)
  {
  }

  /** What an entry of an object at `depth` becomes. */
  function RedactEntry(v: Json, depth: nat, key: string): Json
    requires v.Obj? && key in v.entries
  {
    if Sensitive(key) then MARKER else RedactValue(v.entries[key], depth + 1)
  }

  /** `redactValue` as written: an array is mapped, an object is rebuilt entry by entry in a loop. */
  method RedactValueByLoop(v: Json, depth: nat) returns (r: Json)
    ensures r == RedactValue(v, depth)
    decreases v, 1
  {
    if depth >= DEPTH_MAX { return MARKER; }
    if v.Arr? {
      r := RedactArrayByLoop(v, depth);
    } else if v.Obj? {
      r := RedactObjectByLoop(v, depth);
    } else {
      r := v;
    }
  }

  method RedactArrayByLoop(v: Json, depth: nat) returns (r: Json)
    requires v.Arr? && depth < DEPTH_MAX
    ensures r == RedactValue(v, depth)
    decreases v, 0
  {
    var out: seq<Json> := [];
    for i := 0 to |v.items|
      invariant |out| == i
      invariant forall j :: 0 <= j < i ==> out[j] == RedactValue(v.items[j], depth + 1)
    {
      var item := RedactValueByLoop(v.items[i], depth + 1);
      out := out + [item];
    }
    assert out == RedactValue(v, depth).items;
    r := Arr(out);
  }

  method RedactObjectByLoop(v: Json, depth: nat) returns (r: Json)
    requires v.Obj? && depth < DEPTH_MAX
    ensures r == RedactValue(v, depth)
    decreases v, 0
  {
    var resultat: map<string, Json>, todo := map[], v.entries.Keys;
    while todo != {}
      invariant todo <= v.entries.Keys
      invariant resultat.Keys == v.entries.Keys - todo - {PROTO}
      invariant forall k :: k in resultat ==> resultat[k] == RedactEntry(v, depth, k)
    {
      var cle :| cle in todo;
      var val := MARKER;
      if !Sensitive(cle) {
        val := RedactValueByLoop(v.entries[cle], depth + 1);
      }
      if cle != PROTO {
        resultat := resultat[cle := val];
      }
      todo := todo - {cle};
    }
    assert resultat == RedactValue(v, depth).entries;
    r := Obj(resultat);
  }

  lemma {:induction false} Idempotent(v: Json, depth: nat)
    ensures RedactValue(RedactValue(v, depth), depth) == RedactValue(v, depth)
    decreases v
  {
    hide Sensitive;
    if depth < DEPTH_MAX {
      match v {
        case Arr(items) =>
          forall i | 0 <= i < |items|
            ensures RedactValue(RedactValue(items[i], depth + 1), depth + 1) == RedactValue(items[i], depth + 1)
          {
            Idempotent(items[i], depth + 1);
          }
        case Obj(entries) =>
          forall k | k in entries
            ensures RedactValue(RedactValue(entries[k], depth + 1), depth + 1) == RedactValue(entries[k], depth + 1)
          {
            Idempotent(entries[k], depth + 1);
          }
        case _ =>
      }
    }
  }

  // ---------------------------------------------------------------- what survives, by position

  datatype Step = Key(key: string) | Index(index: nat)

  predicate Has(v: Json, step: Step) {
    match step
    case Key(k) => v.Obj? && k in v.entries
    case Index(i) => v.Arr? && i < |v.items|
  }

  function Child(v: Json, step: Step): Json
    requires Has(v, step)
  {
    match step
    case Key(k) => v.entries[k]
    case Index(i) => v.items[i]
  }

  /** The value found by following a path from the root, or None when the path leaves the value. */
  function Select(v: Json, path: seq<Step>): Option<Json>
    decreases |path|
  {
    if path == [] then Some(v)
    else if Has(v, path[0]) then Select(Child(v, path[0]), path[1..])
    else None
  }

  predicate Hides(s: Step) {
    s.Key? && (s.key == PROTO || Sensitive(s.key))
  }

  /** A path none of whose keys is sensitive or lost to the prototype setter. */
  predicate Open(path: seq<Step>) {
    forall i :: 0 <= i < |path| ==> !Hides(path[i])
  }

  /** Same constructor and, one level down, the same content up to what redaction may touch. */
  predicate SameTop(before: Json, after: Json) {
    match before
    case Arr(items) => after.Arr? && |after.items| == |items|
    case Obj(entries) => after.Obj? && after.entries.Keys == entries.Keys - {PROTO}
    case _ => after == before
  }

  /** One step into a redacted container. */
  lemma StepInto(v: Json, depth: nat, r: Json, step: Step)
    requires depth < DEPTH_MAX && r == RedactValue(v, depth)
    ensures Has(r, step) <==> Has(v, step) && step != Key(PROTO)
    ensures Has(r, step) ==>
              Child(r, step) ==
              if step.Key? && Sensitive(step.key) then MARKER else RedactValue(Child(v, step), depth + 1)
  {
  }

  lemma SelectStep(v: Json, path: seq<Step>)
    requires path != []
    ensures Select(v, path) == if Has(v, path[0]) then Select(Child(v, path[0]), path[1..]) else None
    ensures |path| > 1 ==> path[1..][|path| - 2] == path[|path| - 1]
  {
  }

  /** What is left at a path: a position of the original, within the depth limit, masked as it should be. */
  lemma {:induction false} SurvivingPosition(v: Json, depth: nat, r: Json, path: seq<Step>)
    requires depth <= DEPTH_MAX && r == RedactValue(v, depth) && Select(r, path).Some?
    ensures Select(v, path).Some?
    ensures |path| + depth <= DEPTH_MAX
    ensures |path| + depth == DEPTH_MAX ==> Select(r, path).value == MARKER
    ensures path != [] ==> path[|path| - 1] != Key(PROTO)
    ensures path != [] && Hides(path[|path| - 1]) ==> Select(r, path).value == MARKER
    decreases |path|
  {
    hide Sensitive;
    if path == [] {
    } else {
      AtTheLimit(v, depth, r, path[0]);
      StepInto(v, depth, r, path[0]);
      SelectStep(v, path);
      SelectStep(r, path);
      if path[0].Key? && Sensitive(path[0].key) {
        assert path[1..] == [];
      } else {
        SurvivingPosition(Child(v, path[0]), depth + 1, Child(r, path[0]), path[1..]);
      }
    }
  }

  lemma AtTheLimit(v: Json, depth: nat, r: Json, step: Step)
    requires depth <= DEPTH_MAX && r == RedactValue(v, depth) && Has(r, step)
    ensures depth < DEPTH_MAX
  {
  }

  /** Everything reached above the depth limit without a hidden key is still there, with the same top. */
  lemma {:induction false} OpenPositionKept(v: Json, depth: nat, r: Json, path: seq<Step>)
    requires Open(path) && |path| + depth < DEPTH_MAX && r == RedactValue(v, depth)
    ensures Select(r, path).Some? == Select(v, path).Some?
    ensures Select(v, path).Some? ==> SameTop(Select(v, path).value, Select(r, path).value)
    decreases |path|
  {
    hide Sensitive;
    if path == [] {
      SameTopAfter(v, depth);
    } else {
      OpenTail(path);
      StepInto(v, depth, r, path[0]);
      SelectStep(v, path);
      SelectStep(r, path);
      if Has(v, path[0]) {
        OpenPositionKept(Child(v, path[0]), depth + 1, Child(r, path[0]), path[1..]);
      }
    }
  }

  lemma OpenTail(path: seq<Step>)
    requires Open(path) && path != []
    ensures !Hides(path[0]) && Open(path[1..])
  {
    forall i | 0 <= i < |path[1..]| ensures !Hides(path[1..][i]) {
      assert path[1..][i] == path[i + 1];
    }
  }

  lemma SameTopAfter(v: Json, depth: nat)
    requires depth < DEPTH_MAX
    ensures SameTop(v, RedactValue(v, depth))
  {
  }

  /** No entry under a sensitive key holds anything but the marker, at any depth. */
  lemma NothingSensitiveSurvives(payload: map<string, Json>, path: seq<Step>, key: string)
    requires Sensitive(key)
    requires Select(Obj(RedactObject(payload)), path + [Key(key)]).Some?
    ensures Select(Obj(RedactObject(payload)), path + [Key(key)]).value == Str("[REDACTED]")
  {
    hide Sensitive;
    RedactObjectIsRedactValue(payload);
    SurvivingPosition(Obj(payload), 0, Obj(RedactObject(payload)), path + [Key(key)]);
  }

  /** Nothing lies deeper than six steps, and what lies exactly there is the marker. */
  lemma DepthBounded(payload: map<string, Json>, path: seq<Step>)
    requires Select(Obj(RedactObject(payload)), path).Some?
    ensures |path| <= 6
    ensures |path| == 6 ==> Select(Obj(RedactObject(payload)), path).value == Str("[REDACTED]")
  {
    hide Sensitive;
    RedactObjectIsRedactValue(payload);
    SurvivingPosition(Obj(payload), 0, Obj(RedactObject(payload)), path);
  }

  /** Every position above the depth limit that no hidden key covers is still there, with the same top. */
  lemma OpenPositionsPreserved(payload: map<string, Json>, path: seq<Step>)
    requires Open(path) && |path| < 6
    ensures var before, after := Select(Obj(payload), path), Select(Obj(RedactObject(payload)), path);
            after.Some? == before.Some? && (after.Some? ==> SameTop(before.value, after.value))
  {
    hide Sensitive;
    RedactObjectIsRedactValue(payload);
    OpenPositionKept(Obj(payload), 0, Obj(RedactObject(payload)), path);
  }

  // ---------------------------------------------------------------- exactly when nothing changes

  /** Every position is shallow enough, no key is lost, and sensitive keys already hold the marker. */
  ghost predicate Untouched(v: Json, depth: nat) {
    forall path: seq<Step> :: Select(v, path).Some? ==> PositionUntouched(v, depth, path)
  }

  ghost predicate PositionUntouched(v: Json, depth: nat, path: seq<Step>)
    requires Select(v, path).Some?
  {
    && (depth + |path| >= DEPTH_MAX ==> Select(v, path).value == MARKER)
    && (path != [] ==> path[|path| - 1] != Key(PROTO))
    && (path != [] && Hides(path[|path| - 1]) ==> Select(v, path).value == MARKER)
  }

  /**
   * Redaction leaves a value unchanged if and only if the value has no position for it to act on.
   * A payload shallower than DEPTH_MAX with no sensitive key is such a value, unless it holds the
   * key PROTO, whose entry redaction drops.
   */
  lemma {:induction false} UnchangedIff(v: Json, depth: nat)
    ensures RedactValue(v, depth) == v <==> Untouched(v, depth)
    decreases v
  {
    if RedactValue(v, depth) == v {
      forall path: seq<Step> | Select(v, path).Some? ensures PositionUntouched(v, depth, path) {
        FixpointPosition(v, depth, path);
      }
    }
    if Untouched(v, depth) {
      UntouchedIsFixpoint(v, depth);
    }
  }

  lemma {:induction false} FixpointPosition(v: Json, depth: nat, path: seq<Step>)
    requires RedactValue(v, depth) == v && Select(v, path).Some?
    ensures PositionUntouched(v, depth, path)
  {
    if depth <= DEPTH_MAX {
      SurvivingPosition(v, depth, v, path);
    }
  }

  lemma {:induction false} UntouchedIsFixpoint(v: Json, depth: nat)
    requires Untouched(v, depth)
    ensures RedactValue(v, depth) == v
    decreases v
  {
    hide Sensitive;
    assert Select(v, []) == Some(v);
    assert PositionUntouched(v, depth, []);
    if depth < DEPTH_MAX {
      match v {
        case Arr(items) =>
          forall i | 0 <= i < |items| ensures RedactValue(items[i], depth + 1) == items[i] {
            UntouchedBelow(v, depth, Index(i));
            UntouchedIsFixpoint(items[i], depth + 1);
          }
          assert RedactValue(v, depth).items == items;
        case Obj(entries) =>
          forall k | k in entries
            ensures k != PROTO
            ensures (if Sensitive(k) then MARKER else RedactValue(entries[k], depth + 1)) == entries[k]
          {
            UntouchedBelow(v, depth, Key(k));
            UntouchedIsFixpoint(entries[k], depth + 1);
          }
          assert RedactValue(v, depth).entries == entries;
        case _ =>
      }
    }
  }

  lemma UntouchedBelow(v: Json, depth: nat, step: Step)
    requires Untouched(v, depth) && Has(v, step)
    ensures Untouched(Child(v, step), depth + 1)
    ensures step != Key(PROTO)
    ensures step.Key? && Sensitive(step.key) ==> Child(v, step) == MARKER
  {
    var child := Child(v, step);
    assert Select(child, []) == Some(child);
    assert [step][1..] == [];
    assert Select(v, [step]) == Some(child);
    assert PositionUntouched(v, depth, [step]);
    forall path: seq<Step> | Select(child, path).Some? ensures PositionUntouched(child, depth + 1, path) {
      var full := [step] + path;
      assert full[1..] == path;
      assert Select(v, full) == Select(child, path);
      assert PositionUntouched(v, depth, full);
      if path != [] { assert full[|full| - 1] == path[|path| - 1]; }
    }
  }
}
