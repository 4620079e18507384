/** Log masking over JSON trees. */
module Masking {
  import opened Json

  const SENSITIVE_FIELDS: seq<string> := [
    "password", "token", "secret", "authorization", "cookie", "api_key", "apiKey",
    "accessToken", "refreshToken", "creditCard", "ssn"
  ]

  function Lower(s: string): string {
    seq(|s|, i requires 0 <= i < |s| => if 'A' <= s[i] <= 'Z' then s[i] - 'A' + 'a' else s[i])
  }

  predicate OccursAt(s: string, sub: string, i: nat) { i + |sub| <= |s| && s[i..i + |sub|] == sub }

  predicate Includes(s: string, sub: string) {
    exists i: nat | i <= |s| :: OccursAt(s, sub, i)
  }

  predicate Sensitive(field: string) {
    exists i | 0 <= i < |SENSITIVE_FIELDS| :: Includes(Lower(field), Lower(SENSITIVE_FIELDS[i]))
  }

  /** `!value`. */
  predicate Falsy(v: Json) { v.JNull? || v == JBool(false) || v == JNum("0") || v == JStr("") }

  /** `String(value)`. */
  function Stringify(v: Json): string {
    match v
    case JNull => "null"
    case JBool(b) => if b then "true" else "false"
    case JNum(text) => text
    case JStr(s) => s
    case JArr(items) => Join(items)
    case JObj(_) => "[object Object]"
  }

  /** `items.join(",")`, in which null is the empty string. */
  function Join(items: seq<Json>): string {
    if items == [] then ""
    else
      var last := items[|items| - 1];
      var text := if last.JNull? then "" else Stringify(last);
      if |items| == 1 then text else Join(items[..|items| - 1]) + "," + text
  }

  function MaskText(s: string): string {
    if |s| <= 4 then "***" else s[..2] + "***" + s[|s| - 2..]
  }

  function MaskValue(v: Json): string {
    if Falsy(v) then "***" else MaskText(Stringify(v))
  }

  function Mask(j: Json): Json {
    match j
    case JArr(items) => JArr(seq(|items|, i requires 0 <= i < |items| => Mask(items[i])))
    case JObj(fields) => JObj(seq(|fields|, i requires 0 <= i < |fields| => MaskField(fields[i])))
    case _ => j
  }

  function MaskField(f: Field): Field {
    Field(f.key, if Sensitive(f.key) then JStr(MaskValue(f.value)) else Mask(f.value))
  }

  // ---- keys that do not become keys ----

  const PROTO := "__proto__"

  /** Assigning to `__proto__` sets a prototype, or nothing, and adds no key: the
      fields of that name are lost wherever masking copies an object. */
  function Clean(j: Json): Json {
    match j
    case JArr(items) => JArr(seq(|items|, i requires 0 <= i < |items| => Clean(items[i])))
    case JObj(fields) => JObj(CleanFields(fields))
    case _ => j
  }

  function CleanFields(fields: seq<Field>): seq<Field> {
    if fields == [] then []
    else if fields[0].key == PROTO then CleanFields(fields[1..])
    else
      var f := fields[0];
      [Field(f.key, if Sensitive(f.key) then f.value else Clean(f.value))] + CleanFields(fields[1..])
  }

  predicate IsClean(j: Json) {
    match j
    case JArr(items) => forall i | 0 <= i < |items| :: IsClean(items[i])
    case JObj(fields) => forall i | 0 <= i < |fields| :: CleanField(fields[i])
    case _ => true
  }

  predicate CleanField(f: Field) { f.key != PROTO && (!Sensitive(f.key) ==> IsClean(f.value)) }

  lemma {:induction false} CleanIsClean(j: Json)
    ensures IsClean(Clean(j))
  {
    match j {
      case JArr(items) => forall i | 0 <= i < |items| ensures IsClean(Clean(items[i])) { CleanIsClean(items[i]); }
      case JObj(fields) => CleanFieldsAreClean(fields);
      case _ =>
    }
  }

  lemma {:induction false} CleanFieldsAreClean(fields: seq<Field>)
    ensures forall i | 0 <= i < |CleanFields(fields)| :: CleanField(CleanFields(fields)[i])
  {
    if fields != [] {
      CleanIsClean(fields[0].value);
      CleanFieldsAreClean(fields[1..]);
    }
  }

  /** A tree without such keys is left as it is. */
  lemma {:induction false} CleanKeeps(j: Json)
    requires IsClean(j)
    ensures Clean(j) == j
  {
    match j {
      case JArr(items) => forall i | 0 <= i < |items| ensures Clean(items[i]) == items[i] { CleanKeeps(items[i]); }
      case JObj(fields) => CleanFieldsKeep(fields);
      case _ =>
    }
  }

  lemma {:induction false} CleanFieldsKeep(fields: seq<Field>)
    requires forall i | 0 <= i < |fields| :: CleanField(fields[i])
    ensures CleanFields(fields) == fields
  {
    if fields != [] {
      assert CleanField(fields[0]);
      if !Sensitive(fields[0].key) { CleanKeeps(fields[0].value); }
      CleanFieldsKeep(fields[1..]);
    }
  }

  lemma {:induction false} MaskIsClean(j: Json)
    requires IsClean(j)
    ensures IsClean(Mask(j))
  {
    match j {
      case JArr(items) => forall i | 0 <= i < |items| ensures IsClean(Mask(items[i])) { MaskIsClean(items[i]); }
      case JObj(fields) =>
        forall i | 0 <= i < |fields| ensures CleanField(MaskField(fields[i])) {
          assert CleanField(fields[i]);
          if !Sensitive(fields[i].key) { MaskIsClean(fields[i].value); }
        }
      case _ =>
    }
  }

  /** What `maskObject` makes of a tree. */
  function Masked(j: Json): Json { Mask(Clean(j)) }

  // ---- the loop as written ----

  /** An object has no key twice. */
  predicate ProperKeys(fields: seq<Field>) { forall i, j | 0 <= i < j < |fields| :: fields[i].key != fields[j].key }

  predicate Proper(j: Json) {
    match j
    case JArr(items) => forall i | 0 <= i < |items| :: Proper(items[i])
    case JObj(fields) => ProperKeys(fields) && forall i | 0 <= i < |fields| :: Proper(fields[i].value)
    case _ => true
  }

  /** Every tree whose objects have distinct keys is accepted, at any depth. */
  lemma {:induction false} ProperLaw(j: Json)
    ensures !j.JArr? && !j.JObj? ==> Proper(j)
    ensures j.JArr? ==> (Proper(j) <==> forall item | item in j.items :: Proper(item))
    ensures j.JObj? ==>
              (Proper(j) <==> (forall a, b | 0 <= a < |j.fields| && 0 <= b < |j.fields| && j.fields[a].key == j.fields[b].key :: a == b)
                              && forall f | f in j.fields :: Proper(f.value))
  {
    match j {
      case JArr(items) =>
        assert Proper(j) <==> forall i | 0 <= i < |items| :: Proper(items[i]);
        if forall item | item in items :: Proper(item) { forall i | 0 <= i < |items| ensures Proper(items[i]) {} }
      case JObj(fields) =>
        assert ProperKeys(fields) <==> forall a, b | 0 <= a < |fields| && 0 <= b < |fields| && fields[a].key == fields[b].key :: a == b;
        assert Proper(j) <==> ProperKeys(fields) && forall i | 0 <= i < |fields| :: Proper(fields[i].value);
        if forall f | f in fields :: Proper(f.value) { forall i | 0 <= i < |fields| ensures Proper(fields[i].value) { assert fields[i] in fields; } }
        hide ProperKeys;
      case _ =>
    }
  }

  /** `masked[key] = value`: replace the entry in place, or append it. */
  function Put(masked: seq<Field>, key: string, value: Json): seq<Field> {
    if key == PROTO then masked
    else if masked == [] then [Field(key, value)]
    else if masked[0].key == key then [Field(key, value)] + masked[1..]
    else [masked[0]] + Put(masked[1..], key, value)
  }

  lemma {:induction false} PutAppends(masked: seq<Field>, key: string, value: Json)
    requires forall i | 0 <= i < |masked| :: masked[i].key != key
    ensures Put(masked, key, value) == if key == PROTO then masked else masked + [Field(key, value)]
  {
    if masked != [] {
      PutAppends(masked[1..], key, value);
    }
  }

  lemma {:induction false} CleanSnoc(fields: seq<Field>, f: Field)
    ensures CleanFields(fields + [f]) == CleanFields(fields) + CleanFields([f])
  {
    if fields == [] {
      assert fields + [f] == [f];
    } else {
      assert (fields + [f])[1..] == fields[1..] + [f];
      CleanSnoc(fields[1..], f);
    }
  }

  function MaskFields(fields: seq<Field>): seq<Field> {
    seq(|fields|, i requires 0 <= i < |fields| => MaskField(fields[i]))
  }

  lemma {:induction false} CleanKeysCome(fields: seq<Field>, key: string)
    requires forall i | 0 <= i < |fields| :: fields[i].key != key
    ensures forall i | 0 <= i < |CleanFields(fields)| :: CleanFields(fields)[i].key != key
  {
    if fields != [] { CleanKeysCome(fields[1..], key); }
  }

  /** One more assignment of the loop. */
  lemma OneMoreField(fields: seq<Field>, f: Field, shown: Json)
    requires forall i | 0 <= i < |fields| :: fields[i].key != f.key
    requires shown == if Sensitive(f.key) then JStr(MaskValue(f.value)) else Masked(f.value)
    ensures Put(MaskFields(CleanFields(fields)), f.key, shown) == MaskFields(CleanFields(fields + [f]))
  {
    hide Sensitive, MaskValue, Mask, Clean, Put;
    CleanSnoc(fields, f);
    CleanKeysCome(fields, f.key);
    PutAppends(MaskFields(CleanFields(fields)), f.key, shown);
  }

  method MaskObject(obj: Json) returns (r: Json)
    requires Proper(obj)
    ensures r == Masked(obj)
    decreases obj
  {
    hide Sensitive, MaskValue, Put, CleanFields;
    if !obj.JArr? && !obj.JObj? { return obj; }
    if obj.JArr? {
      var out: seq<Json> := [];
      for i := 0 to |obj.items|
        invariant |out| == i && forall k | 0 <= k < i :: out[k] == Masked(obj.items[k])
      {
        var item := MaskObject(obj.items[i]);
        out := out + [item];
      }
      return JArr(out);
    }
    var fields := obj.fields;
    var masked: seq<Field> := [];
    NoFields();
    for i := 0 to |fields|
      invariant masked == MaskFields(CleanFields(fields[..i]))
    {
      var key, value := fields[i].key, fields[i].value;
      var shown := value;
      if Sensitive(key) {
        shown := JStr(MaskValue(value));
      } else if value.JArr? || value.JObj? || value.JNull? {
        shown := MaskObject(value);
      }
      assert fields[..i + 1] == fields[..i] + [fields[i]];
      OneMoreField(fields[..i], fields[i], shown);
      masked := Put(masked, key, shown);
    }
    assert fields[..|fields|] == fields;
    r := JObj(masked);
  }

  lemma NoFields()
    ensures MaskFields(CleanFields([])) == []
  {
  }

  // ---- idempotence ----

  /** A masked value is a fixed point of masking. */
  lemma MaskValueFixed(v: Json)
    ensures MaskValue(JStr(MaskValue(v))) == MaskValue(v)
  {
  }

  /** Masking twice is masking once, for every JSON tree. */
  lemma {:induction false} MaskIdempotent(j: Json)
    ensures Mask(Mask(j)) == Mask(j)
  {
    match j {
      case JArr(items) =>
        forall i | 0 <= i < |items| ensures Mask(Mask(items[i])) == Mask(items[i]) { MaskIdempotent(items[i]); }
      case JObj(fields) =>
        forall i | 0 <= i < |fields| ensures MaskField(MaskField(fields[i])) == MaskField(fields[i]) {
          MaskValueFixed(fields[i].value);
          MaskIdempotent(fields[i].value);
        }
      case _ =>
    }
  }

  /** So `maskObject` of its own result is that result. */
  lemma {:induction false} MaskedIdempotent(j: Json)
    ensures Masked(Masked(j)) == Masked(j)
  {
    CleanIsClean(j);
    MaskIsClean(Clean(j));
    CleanKeeps(Mask(Clean(j)));
    MaskIdempotent(Clean(j));
  }

  // ---- shape ----

  /** The path, by positions, stays inside the tree and crosses no sensitive key. */
  predicate Open(j: Json, path: seq<nat>)
    decreases |path|
  {
    path == [] ||
    match j
    case JArr(items) => path[0] < |items| && Open(items[path[0]], path[1..])
    case JObj(fields) =>
      path[0] < |fields| && !Sensitive(fields[path[0]].key) && Open(fields[path[0]].value, path[1..])
    case _ => false
  }

  function At(j: Json, path: seq<nat>): Json
    requires Open(j, path)
    decreases |path|
  {
    if path == [] then j
    else if j.JArr? then At(j.items[path[0]], path[1..])
    else At(j.fields[path[0]].value, path[1..])
  }

  function Keys(j: Json): seq<string> {
    if j.JObj? then seq(|j.fields|, i requires 0 <= i < |j.fields| => j.fields[i].key) else []
  }

  /** Shape: along every path that crosses no sensitive key the masked tree has a
      node of the same kind, with the same array length and the same keys in the
      same order, and every leaf there is unchanged. */
  lemma {:induction false} MaskKeepsShape(j: Json, path: seq<nat>)
    requires Open(j, path)
    ensures Open(Mask(j), path)
    ensures At(Mask(j), path) == Mask(At(j, path))
    ensures
      var before, after := At(j, path), At(Mask(j), path);
      && Keys(after) == Keys(before)
      && (before.JArr? ==> after.JArr? && |after.items| == |before.items|)
      && (before.JObj? ==> after.JObj?)
      && (!before.JArr? && !before.JObj? ==> after == before)
    decreases |path|
  {
    if path != [] {
      match j {
        case JArr(items) => MaskKeepsShape(items[path[0]], path[1..]);
        case JObj(fields) => MaskKeepsShape(fields[path[0]].value, path[1..]);
      }
    }
  }

  /** A value under a sensitive key becomes a short string: the mark alone, or the
      mark between two characters of each end. */
  lemma SensitiveValueIsMarked(j: Json, path: seq<nat>, i: nat)
    requires Open(j, path) && At(j, path).JObj? && i < |At(j, path).fields| && Sensitive(At(j, path).fields[i].key)
    ensures Open(Mask(j), path) && At(Mask(j), path).JObj? && i < |At(Mask(j), path).fields|
    ensures
      var shown, text := At(Mask(j), path).fields[i].value, Stringify(At(j, path).fields[i].value);
      shown == JStr("***") || (|text| > 4 && shown == JStr(text[..2] + "***" + text[|text| - 2..]))
  {
  }

  // ---- what masking reveals ----

  /** The value is shown as the bare mark. */
  predicate Hidden(v: Json) { Falsy(v) || |Stringify(v)| <= 4 }

  predicate SameEnds(s: string, t: string)
    requires |s| > 4 && |t| > 4
  {
    s[..2] == t[..2] && s[|s| - 2..] == t[|t| - 2..]
  }

  predicate SameMark(v: Json, w: Json) {
    if Hidden(v) || Hidden(w) then Hidden(v) && Hidden(w) else SameEnds(Stringify(v), Stringify(w))
  }

  /** The trees differ at most in values under sensitive keys, and there only
      within values that are both hidden or have the same two characters at each
      end. */
  predicate Alike(x: Json, y: Json) {
    match (x, y)
    case (JArr(a), JArr(b)) => |a| == |b| && forall i | 0 <= i < |a| :: Alike(a[i], b[i])
    case (JObj(a), JObj(b)) => |a| == |b| && forall i | 0 <= i < |a| :: AlikeField(a[i], b[i])
    case _ => x == y
  }

  predicate AlikeField(f: Field, g: Field) {
    f.key == g.key && if Sensitive(f.key) then SameMark(f.value, g.value) else Alike(f.value, g.value)
  }

  lemma MarksEqualIff(v: Json, w: Json)
    ensures MaskValue(v) == MaskValue(w) <==> SameMark(v, w)
  {
    var s, t := Stringify(v), Stringify(w);
    if !Hidden(v) {
      var m := MaskValue(v);
      assert |m| == 7 && m[..2] == s[..2] && m[5..] == s[|s| - 2..];
    }
    if !Hidden(w) {
      var m := MaskValue(w);
      assert |m| == 7 && m[..2] == t[..2] && m[5..] == t[|t| - 2..];
    }
  }

  /** Masking reveals exactly this much: two JSON trees, however deep, mask to the
      same tree if and only if they are alike. */
  lemma {:induction false} MasksEqualIff(x: Json, y: Json)
    ensures Mask(x) == Mask(y) <==> Alike(x, y)
  {
    match (x, y) {
      case (JArr(a), JArr(b)) =>
        if |a| == |b| {
          forall i | 0 <= i < |a| ensures Mask(a[i]) == Mask(b[i]) <==> Alike(a[i], b[i]) { MasksEqualIff(a[i], b[i]); }
          assert forall i | 0 <= i < |a| :: Mask(x).items[i] == Mask(a[i]) && Mask(y).items[i] == Mask(b[i]);
          assert Mask(x).items == Mask(y).items <==> forall i | 0 <= i < |a| :: Mask(a[i]) == Mask(b[i]);
        } else {
          assert |Mask(x).items| != |Mask(y).items|;
        }
      case (JObj(a), JObj(b)) =>
        if |a| == |b| {
          forall i | 0 <= i < |a| ensures MaskField(a[i]) == MaskField(b[i]) <==> AlikeField(a[i], b[i]) {
            MarksEqualIff(a[i].value, b[i].value);
            MasksEqualIff(a[i].value, b[i].value);
          }
          assert forall i | 0 <= i < |a| :: Mask(x).fields[i] == MaskField(a[i]) && Mask(y).fields[i] == MaskField(b[i]);
          assert Mask(x).fields == Mask(y).fields <==> forall i | 0 <= i < |a| :: MaskField(a[i]) == MaskField(b[i]);
        } else {
          assert |Mask(x).fields| != |Mask(y).fields|;
        }
      case _ =>
    }
  }

  /** The same of `maskObject`, which drops the keys it cannot copy. */
  lemma {:induction false} MaskedEqualIff(x: Json, y: Json)
    ensures Masked(x) == Masked(y) <==> Alike(Clean(x), Clean(y))
  {
    MasksEqualIff(Clean(x), Clean(y));
  }

  /** Any name with a listed field in it, in whatever case and wherever it stands,
      is sensitive. */
  lemma NamesContainingAFieldAreSensitive(prefix: string, name: string, suffix: string, i: nat)
    requires i < |SENSITIVE_FIELDS| && Lower(name) == Lower(SENSITIVE_FIELDS[i])
    ensures Sensitive(prefix + name + suffix)
  {
    var field := prefix + name + suffix;
    assert Lower(field)[|prefix|..|prefix| + |name|] == Lower(name);
    assert OccursAt(Lower(field), Lower(SENSITIVE_FIELDS[i]), |prefix|);
  }

  // ---- which names, and what is shown, in plain terms ----

  /** Equal but for the case of ASCII letters. */
  predicate SameLetters(a: string, b: string) {
    |a| == |b| && forall i | 0 <= i < |a| :: SameLetter(a[i], b[i])
  }

  predicate SameLetter(x: char, y: char) {
    || x == y
    || ('A' <= x <= 'Z' && y as int == x as int + 32)
    || ('A' <= y <= 'Z' && x as int == y as int + 32)
  }

  predicate ListedName(name: string) {
    || SameLetters(name, "password") || SameLetters(name, "token") || SameLetters(name, "secret")
    || SameLetters(name, "authorization") || SameLetters(name, "cookie") || SameLetters(name, "api_key")
    || SameLetters(name, "apiKey") || SameLetters(name, "accessToken") || SameLetters(name, "refreshToken")
    || SameLetters(name, "creditCard") || SameLetters(name, "ssn")
  }

  lemma {:induction false} LowerIff(a: string, b: string)
    ensures Lower(a) == Lower(b) <==> SameLetters(a, b)
  {
    if Lower(a) == Lower(b) {
      assert |Lower(a)| == |a| && |Lower(b)| == |b|;
      forall i | 0 <= i < |a| ensures SameLetter(a[i], b[i]) { assert Lower(a)[i] == Lower(b)[i]; }
    }
    if SameLetters(a, b) {
      assert forall i | 0 <= i < |a| :: SameLetter(a[i], b[i]);
      assert forall i | 0 <= i < |a| :: Lower(a)[i] == Lower(b)[i];
    }
  }

  lemma {:induction false} ListedIff(name: string)
    ensures ListedName(name) <==> exists i | 0 <= i < |SENSITIVE_FIELDS| :: Lower(name) == Lower(SENSITIVE_FIELDS[i])
  {
    forall i | 0 <= i < |SENSITIVE_FIELDS| ensures Lower(name) == Lower(SENSITIVE_FIELDS[i]) <==> SameLetters(name, SENSITIVE_FIELDS[i]) {
      LowerIff(name, SENSITIVE_FIELDS[i]);
    }
    hide SameLetters, Lower;
    var fields := SENSITIVE_FIELDS;
    assert fields[0] == "password" && fields[1] == "token" && fields[2] == "secret" && fields[3] == "authorization"
        && fields[4] == "cookie" && fields[5] == "api_key" && fields[6] == "apiKey" && fields[7] == "accessToken"
        && fields[8] == "refreshToken" && fields[9] == "creditCard" && fields[10] == "ssn";
  }

  /** A field is sensitive exactly when one of the eleven names, in whatever case,
      stands somewhere in its name. */
  lemma {:induction false} SensitiveIff(field: string)
    ensures Sensitive(field) <==> exists prefix, name, suffix :: field == prefix + name + suffix && ListedName(name)
  {
    hide Lower, ListedName;
    if Sensitive(field) {
      var i :| 0 <= i < |SENSITIVE_FIELDS| && Includes(Lower(field), Lower(SENSITIVE_FIELDS[i]));
      var j: nat :| j <= |Lower(field)| && OccursAt(Lower(field), Lower(SENSITIVE_FIELDS[i]), j);
      LowerParts(field, j, j + |Lower(SENSITIVE_FIELDS[i])|);
      var name := field[j..j + |Lower(SENSITIVE_FIELDS[i])|];
      ListedIff(name);
      assert field == field[..j] + name + field[j + |Lower(SENSITIVE_FIELDS[i])|..];
    }
    if prefix, name, suffix :| field == prefix + name + suffix && ListedName(name) {
      ListedIff(name);
      var i :| 0 <= i < |SENSITIVE_FIELDS| && Lower(name) == Lower(SENSITIVE_FIELDS[i]);
      NamesContainingAFieldAreSensitive(prefix, name, suffix, i);
    }
  }

  lemma LowerParts(s: string, i: nat, j: nat)
    requires i <= j <= |Lower(s)|
    ensures |Lower(s)| == |s| && Lower(s[i..j]) == Lower(s)[i..j]
  {
  }

  /** Shown in place of a value under a sensitive key: the mark alone for null, for
      booleans, zero and the empty text, and for anything whose text has at most four
      characters; otherwise the mark between two characters of each end. */
  lemma {:induction false} MaskValueLaw(v: Json)
    ensures v.JNull? || v.JBool? || v == JNum("0") || v == JStr("") ==> MaskValue(v) == "***"
    ensures v.JStr? && |v.s| <= 4 ==> MaskValue(v) == "***"
    ensures v.JNum? && |v.text| <= 4 ==> MaskValue(v) == "***"
    ensures v.JStr? && |v.s| > 4 ==> MaskValue(v) == v.s[..2] + "***" + v.s[|v.s| - 2..]
    ensures v.JNum? && |v.text| > 4 ==> MaskValue(v) == v.text[..2] + "***" + v.text[|v.text| - 2..]
    ensures v.JObj? ==> MaskValue(v) == "[o***t]"
    ensures v == JArr([]) ==> MaskValue(v) == "***"
  {
  }

  /** The text of a value. */
  lemma TextLaw(v: Json)
    ensures Stringify(JBool(true)) == "true" && Stringify(JBool(false)) == "false" && Stringify(JNull) == "null"
    ensures (v.JStr? ==> Stringify(v) == v.s) && (v.JNum? ==> Stringify(v) == v.text)
    ensures v.JObj? ==> Stringify(v) == "[object Object]"
    ensures v == JArr([]) ==> Stringify(v) == ""
  {
  }

  /** The text of an array: its items' texts with commas between, null as nothing. */
  lemma {:induction false} ArrayTextLaw(items: seq<Json>, last: Json)
    ensures Stringify(JArr([last])) == if last == JNull then "" else Stringify(last)
    ensures |items| >= 1 ==>
              Stringify(JArr(items + [last])) == Stringify(JArr(items)) + "," + Stringify(JArr([last]))
  {
    assert (items + [last])[..|items|] == items;
  }

  /** The keys of a masked object are its own, in order, without `__proto__`; and a
      field shows its masked value or its masked subtree. */
  lemma {:induction false} ObjectLaw(fields: seq<Field>, f: Field)
    ensures Masked(JObj([])) == JObj([])
    ensures f.key == "__proto__" ==> Masked(JObj(fields + [f])) == Masked(JObj(fields))
    ensures f.key != "__proto__" ==>
              Masked(JObj(fields + [f])).fields == Masked(JObj(fields)).fields
                + [Field(f.key, if Sensitive(f.key) then JStr(MaskValue(f.value)) else Masked(f.value))]
  {
    CleanSnoc(fields, f);
    hide Sensitive, MaskValue;
    assert f.key != PROTO ==> MaskFields(CleanFields(fields + [f])) == MaskFields(CleanFields(fields)) + MaskFields(CleanFields([f]));
  }
}
