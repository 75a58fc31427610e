/** Removing sensitive data from JSON before it is logged (components/common-go/log/redact.go). */
module Redaction {
  import opened Options
  import opened Strings

  datatype Json =
    | Null
    | Bool(flag: bool)
    | Number(literal: string)
    | Str(text: string)
    | Arr(items: seq<Json>)
    | Obj(fields: map<string, Json>)

  const REDACTED_VALUE := "[redacted]"
  const REDACTED_FIELDS := ["auth_", "password", "token"]

  /** Whether a text contains a prohibited part, in whatever case. */
  predicate Sensitive(s: string) {
    exists i | 0 <= i < |REDACTED_FIELDS| :: Contains(ToLower(s), REDACTED_FIELDS[i])
  }

  // ---- Specification ----

  function Redacted(j: Json): Json {
    match j
    case Str(s) => if Sensitive(s) then Str(REDACTED_VALUE) else j
    case Arr(items) => Arr(seq(|items|, i requires 0 <= i < |items| => Redacted(items[i])))
    case Obj(fields) => Obj(map k | k in fields :: if Sensitive(k) then Str(REDACTED_VALUE) else Redacted(fields[k]))
    case _ => j
  }

  // ---- The methods ----

  method IsSensitive(s: string) returns (r: bool)
    ensures r == Sensitive(s)
  {
    r := false;
    for i := 0 to |REDACTED_FIELDS|
      invariant r <==> exists k | 0 <= k < i :: Contains(ToLower(s), REDACTED_FIELDS[k])
    {
      if Contains(ToLower(s), REDACTED_FIELDS[i]) {
        r := true;
      }
    }
  }

  method RedactValue(data: Json) returns (r: Json)
    ensures r == Redacted(data)
    decreases data, 1
  {
    r := data;
    match data {
      case Arr(items) =>
        var a := RedactArray(data);
        r := Arr(a);
      case Obj(fields) =>
        var m := RedactObject(data);
        r := Obj(m);
      case Str(s) =>
        var sensitive := IsSensitive(s);
        if sensitive {
          r := Str(REDACTED_VALUE);
        }
      case _ =>
    }
  }

  method RedactArray(data: Json) returns (a: seq<Json>)
    requires data.Arr?
    ensures Arr(a) == Redacted(data)
    decreases data, 0
  {
    a := data.items;
    for i := 0 to |a|
      invariant |a| == |data.items|
      invariant forall k | 0 <= k < |a| :: a[k] == if k < i then Redacted(data.items[k]) else data.items[k]
    {
      var v := RedactValue(a[i]);
      a := a[i := v];
    }
  }

  method RedactObject(data: Json) returns (m: map<string, Json>)
    requires data.Obj?
    ensures Obj(m) == Redacted(data)
    decreases data, 0
  {
    m := data.fields;
    ghost var target := Redacted(data).fields;
    var todo := m.Keys;
    while todo != {}
      invariant todo <= m.Keys == target.Keys
      invariant forall k | k in m :: m[k] == if k in todo then data.fields[k] else target[k]
    {
      var k :| k in todo;
      todo := todo - {k};
      var v := RedactField(k, m[k]);
      assert v == target[k];
      m := m[k := v];
    }
    assert m == target;
  }

  /** The new value of one field; a field that already holds the marker is left alone. */
  method RedactField(k: string, v: Json) returns (r: Json)
    ensures r == if Sensitive(k) then Str(REDACTED_VALUE) else Redacted(v)
    decreases v, 2
  {
    r := v;
    var sensitive := IsSensitive(k);
    if sensitive {
      r := Str(REDACTED_VALUE);
    }
    MarkerIsHarmless();
    if r != Str(REDACTED_VALUE) {
      r := RedactValue(v);
    }
  }

  /** Text that does not parse is returned as it is, with an error. */
  method RedactJSON(parse: string -> Option<Json>, render: Json -> string, data: string) returns (res: string, ok: bool)
    ensures ok <==> parse(data).Some?
    ensures res == if ok then render(Redacted(parse(data).value)) else data
  {
    var blob := parse(data);
    if blob.None? {
      return data, false;
    }
    var redacted := RedactValue(blob.value);
    return render(redacted), true;
  }

  // ---- What redaction promises ----

  /** If the redacted text parses to the redacted tree, redacting it again changes nothing. */
  lemma RedactedTextParses(parse: string -> Option<Json>, render: Json -> string, data: string)
    requires parse(data).Some?
    requires parse(render(Redacted(parse(data).value))) == Some(Redacted(parse(data).value))
    ensures var once := render(Redacted(parse(data).value));
      render(Redacted(parse(once).value)) == once
  {
    Idempotent(parse(data).value);
  }

  // ---- What is sensitive, in plain terms ----

  /** `part` stands somewhere in the text, in whatever case. */
  ghost predicate Mentions(text: string, part: string) {
    exists before, after :: Around(ToLower(text), before, part, after)
  }

  predicate Around(text: string, before: string, part: string, after: string) {
    text == before + part + after
  }

  ghost predicate Secret(text: string) {
    Mentions(text, "auth_") || Mentions(text, "password") || Mentions(text, "token")
  }

  lemma ContainsExactly(text: string, part: string)
    ensures Contains(text, part) <==> exists before, after :: Around(text, before, part, after)
  {
    if Contains(text, part) {
      var i :| 0 <= i <= |text| && part <= text[i..];
      assert Around(text, text[..i], part, text[i..][|part|..]);
    }
    if before, after :| Around(text, before, part, after) {
      assert text[|before|..] == part + after;
    }
  }

  /** The test finds exactly the texts that mention one of the three prohibited parts. */
  lemma SensitiveExactly(text: string)
    ensures Sensitive(text) <==> Secret(text)
  {
    ContainsExactly(ToLower(text), "auth_");
    ContainsExactly(ToLower(text), "password");
    ContainsExactly(ToLower(text), "token");
    assert REDACTED_FIELDS[0] == "auth_" && REDACTED_FIELDS[1] == "password" && REDACTED_FIELDS[2] == "token";
  }

  /** Case does not matter. */
  lemma CaseDoesNotMatter(a: string, b: string)
    requires ToLower(a) == ToLower(b)
    ensures Sensitive(a) <==> Sensitive(b)
  {}

  lemma UpperCaseToo(text: string)
    ensures Sensitive(ToUpper(text)) <==> Sensitive(text)
  {
    assert ToLower(ToUpper(text)) == ToLower(text);
  }

  /** The marker itself is not sensitive. */
  lemma MarkerIsHarmless()
    ensures !Sensitive(REDACTED_VALUE)
  {
    var s := ToLower(REDACTED_VALUE);
    assert s == REDACTED_VALUE;
    forall f, i | 0 <= f < |REDACTED_FIELDS| && 0 <= i <= |s| ensures !(REDACTED_FIELDS[f] <= s[i..]) {
      var t := s[i..];
      assert |t| < 2 || t[0] != REDACTED_FIELDS[f][0] || t[1] != REDACTED_FIELDS[f][1];
    }
  }

  datatype Step = Index(i: nat) | Key(k: string)

  /** The value that a path leads to. */
  function At(j: Json, path: seq<Step>): Option<Json>
    decreases |path|
  {
    if path == [] then Some(j)
    else
      match (j, path[0])
      case (Arr(items), Index(i)) => if i < |items| then At(items[i], path[1..]) else None
      case (Obj(fields), Key(k)) => if k in fields then At(fields[k], path[1..]) else None
      case _ => None
  }

  predicate Exposed(path: seq<Step>) {
    forall i | 0 <= i < |path| && path[i].Key? :: !Sensitive(path[i].k)
  }

  /** Away from sensitive keys the shape is kept, and each value is redacted on its own. */
  lemma {:induction false} ExposedValues(j: Json, path: seq<Step>)
    requires Exposed(path)
    ensures At(Redacted(j), path) == match At(j, path) case None => None case Some(v) => Some(Redacted(v))
    decreases |path|
  {
    if path != [] {
      assert Exposed(path[1..]) by {
        forall i | 0 <= i < |path[1..]| && path[1..][i].Key? ensures !Sensitive(path[1..][i].k) {
          assert path[i + 1].Key?;
        }
      }
      match (j, path[0])
      case (Arr(items), Index(i)) =>
        if i < |items| {
          ExposedValues(items[i], path[1..]);
        }
      case (Obj(fields), Key(k)) =>
        if k in fields {
          ExposedValues(fields[k], path[1..]);
        }
      case _ =>
    }
  }

  /** No key on the way mentions a prohibited part. */
  ghost predicate Open(path: seq<Step>) {
    forall i | 0 <= i < |path| && path[i].Key? :: !Secret(path[i].k)
  }

  lemma OpenIsExposed(path: seq<Step>)
    requires Open(path)
    ensures Exposed(path)
  {
    forall i | 0 <= i < |path| && path[i].Key? ensures !Sensitive(path[i].k) {
      SensitiveExactly(path[i].k);
    }
  }

  /** What can be seen of a value that no key on the way hides: a text that mentions a prohibited part becomes the
      marker; other texts and all other leaves stay; arrays keep their length and objects their keys. */
  lemma VisibleValues(j: Json, path: seq<Step>)
    requires Open(path)
    ensures match At(j, path)
            case None => At(Redacted(j), path) == None
            case Some(Str(text)) => At(Redacted(j), path) == Some(Str(if Secret(text) then "[redacted]" else text))
            case Some(Arr(items)) =>
              var r := At(Redacted(j), path); r.Some? && r.value.Arr? && |r.value.items| == |items|
            case Some(Obj(fields)) =>
              var r := At(Redacted(j), path); r.Some? && r.value.Obj? && r.value.fields.Keys == fields.Keys
            case Some(leaf) => At(Redacted(j), path) == Some(leaf)
  {
    OpenIsExposed(path);
    ExposedValues(j, path);
    if At(j, path).Some? && At(j, path).value.Str? {
      SensitiveExactly(At(j, path).value.text);
    }
  }

  /** Under a key that mentions a prohibited part there is the marker, and nothing else. */
  lemma HiddenValues(j: Json, path: seq<Step>, k: string, rest: seq<Step>)
    requires Open(path) && Secret(k)
    ensures At(Redacted(j), path + [Key(k)] + rest)
         == if At(j, path + [Key(k)]).None? || rest != [] then None else Some(Str("[redacted]"))
  {
    OpenIsExposed(path);
    SensitiveExactly(k);
    ExposedValues(j, path);
    AtConcat(Redacted(j), path, [Key(k)] + rest);
    AtConcat(j, path, [Key(k)]);
    assert path + [Key(k)] + rest == path + ([Key(k)] + rest);
    assert ([Key(k)] + rest)[1..] == rest && [Key(k)][1..] == [];
  }

  lemma {:induction false} AtConcat(j: Json, p: seq<Step>, q: seq<Step>)
    ensures At(j, p + q) == match At(j, p) case None => None case Some(v) => At(v, q)
    decreases |p|
  {
    if p == [] {
      assert p + q == q;
    } else {
      assert (p + q)[1..] == p[1..] + q;
      match (j, p[0])
      case (Arr(items), Index(i)) =>
        if i < |items| {
          AtConcat(items[i], p[1..], q);
        }
      case (Obj(fields), Key(k)) =>
        if k in fields {
          AtConcat(fields[k], p[1..], q);
        }
      case _ =>
    }
  }

  /** No text that can be reached mentions a prohibited part, and what stands under a key that does is the marker. */
  lemma NothingSensitiveLeft(j: Json, path: seq<Step>)
    ensures match At(Redacted(j), path)
            case None => true
            case Some(v) =>
              && (v.Str? ==> !Mentions(v.text, "auth_") && !Mentions(v.text, "password") && !Mentions(v.text, "token"))
              && (path != [] && path[|path| - 1].Key? && Secret(path[|path| - 1].k) ==> v == Str("[redacted]"))
  {
    NothingSensitiveReached(j, path);
    var r := At(Redacted(j), path);
    if r.Some? && r.value.Str? {
      SensitiveExactly(r.value.text);
    }
    if path != [] && path[|path| - 1].Key? {
      SensitiveExactly(path[|path| - 1].k);
    }
  }

  lemma {:induction false} NothingSensitiveReached(j: Json, path: seq<Step>)
    ensures match At(Redacted(j), path)
            case None => true
            case Some(v) => && (v.Str? ==> !Sensitive(v.text))
                            && (path != [] && path[|path| - 1].Key? && Sensitive(path[|path| - 1].k)
                                ==> v == Str(REDACTED_VALUE))
    decreases |path|
  {
    MarkerIsHarmless();
    if path != [] {
      match (j, path[0])
      case (Arr(items), Index(i)) =>
        if i < |items| {
          NothingSensitiveReached(items[i], path[1..]);
        }
      case (Obj(fields), Key(k)) =>
        if k in fields && !Sensitive(k) {
          NothingSensitiveReached(fields[k], path[1..]);
        }
      case _ =>
    }
  }

  /** No sensitive string, and only markers under sensitive keys. */
  predicate Clean(j: Json) {
    match j
    case Str(s) => !Sensitive(s)
    case Arr(items) => forall i | 0 <= i < |items| :: Clean(items[i])
    case Obj(fields) =>
      forall k | k in fields :: if Sensitive(k) then fields[k] == Str(REDACTED_VALUE) else Clean(fields[k])
    case _ => true
  }

  /** Exactly the clean trees stay as they are. */
  lemma {:induction false} UnchangedExactly(j: Json)
    ensures Redacted(j) == j <==> Clean(j)
  {
    match j
    case Str(_) => MarkerIsHarmless();
    case Arr(items) =>
      forall i | 0 <= i < |items| ensures Redacted(items[i]) == items[i] <==> Clean(items[i]) {
        UnchangedExactly(items[i]);
      }
      if Redacted(j) == j {
        assert forall i | 0 <= i < |items| :: items[i] == Redacted(j).items[i];
      }
    case Obj(fields) =>
      forall k | k in fields ensures Redacted(fields[k]) == fields[k] <==> Clean(fields[k]) {
        UnchangedExactly(fields[k]);
      }
      if Redacted(j) == j {
        assert forall k | k in fields :: fields[k] == Redacted(j).fields[k];
      }
    case _ =>
  }

  lemma {:induction false} RedactedIsClean(j: Json)
    ensures Clean(Redacted(j))
  {
    match j
    case Str(_) => MarkerIsHarmless();
    case Arr(items) =>
      forall i | 0 <= i < |items| ensures Clean(Redacted(j).items[i]) {
        RedactedIsClean(items[i]);
      }
    case Obj(fields) =>
      forall k | k in fields && !Sensitive(k) ensures Clean(Redacted(j).fields[k]) {
        RedactedIsClean(fields[k]);
      }
    case _ =>
  }

  /** Redacting twice is redacting once. */
  lemma Idempotent(j: Json)
    ensures Redacted(Redacted(j)) == Redacted(j)
  {
    RedactedIsClean(j);
    UnchangedExactly(Redacted(j));
  }
}
