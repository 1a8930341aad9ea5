/** obtener_nombre_por_fecha: the destination name of an ingested file,
    built from the record's fecha and hora fields, and the microsecond
    suffix the pass adds when that name is already taken. */
module Naming {
  import opened Text

  /** A JSON value as json.load returns it, as far as its str() matters:
      JOther stands for floats, lists and nested objects, carrying the text
      str() gives for them. */
  datatype Json = JNull | JBool(b: bool) | JInt(i: int) | JString(s: string) | JOther(text: string)

  /** The top-level value of a parsed file: an object (a Python dict) or anything else. */
  datatype Document = JsonObject(fields: map<string, Json>) | NotAnObject(value: Json)

  /** The microsecond field of a clock reading, 0..999999. */
  type Micros = n: nat | n < 1000000

  const FECHA_KEY := "fecha"
  const HORA_KEY := "hora"
  const NO_DATE := "sin_fecha"
  const NO_TIME := "sin_hora"
  const JSON_EXT := ".json"

  /** Python's str() of a JSON value, as the f-string writes it. */
  function PyStr(v: Json): string {
    match v
    case JNull => "None"
    case JBool(b) => if b then "True" else "False"
    case JInt(i) => if i < 0 then "-" + Decimal(-i) else Decimal(i)
    case JString(s) => s
    case JOther(text) => text
  }

  /** str(datos_json.get(key, default)). */
  function Field(fields: map<string, Json>, key: string, default: string): string {
    if key in fields then PyStr(fields[key]) else default
  }

  /** f"{fecha}_{hora}". */
  function NameBase(fields: map<string, Json>): string {
    Field(fields, FECHA_KEY, NO_DATE) + "_" + Field(fields, HORA_KEY, NO_TIME)
  }

  /** What the three replacements turn one character into. */
  function SafeChar(c: char): char {
    if c == ':' || c == '/' then '-' else if c == ' ' then '_' else c
  }

  /** nombre_base.replace(':', '-').replace('/', '-').replace(' ', '_'). */
  function Sanitize(s: string): string {
    Replace(Replace(Replace(s, ":", "-"), "/", "-"), " ", "_")
  }

  /** obtener_nombre_por_fecha: a dict gets the sanitised base plus ".json";
      anything without .get makes the lookup raise, and the original name is kept. */
  function NameForDate(doc: Document, original: string): (name: string)
    ensures doc.NotAnObject? ==> name == original
  {
    match doc
    case JsonObject(fields) => Sanitize(NameBase(fields)) + JSON_EXT
    case NotAnObject(_) => original
  }

  /** The destination used when the name is taken:
      f"{nombre.replace('.json', '')}_{microseconds}.json". */
  function Suffixed(name: string, micros: Micros): string {
    assert Pow10(6) == 1000000;
    Replace(name, JSON_EXT, "") + "_" + Fixed(micros, 6) + JSON_EXT
  }

  /** The sanitisation is a character map: same length, each character
      replaced on its own. */
  lemma SanitizeAt(s: string)
    ensures |Sanitize(s)| == |s|
    ensures forall i :: 0 <= i < |s| ==> Sanitize(s)[i] == SafeChar(s[i])
  {
    var s1 := Replace(s, ":", "-");
    var s2 := Replace(s1, "/", "-");
    ReplaceCharAt(s, ':', '-');
    ReplaceCharAt(s1, '/', '-');
    ReplaceCharAt(s2, ' ', '_');
  }

  /** The sanitised text holds no ':', '/' or ' ', and every other character
      of the input is kept where it was. */
  lemma SanitizeSafe(s: string)
    ensures |Sanitize(s)| == |s|
    ensures !Contains(Sanitize(s), ':') && !Contains(Sanitize(s), '/') && !Contains(Sanitize(s), ' ')
    ensures forall i :: 0 <= i < |s| && s[i] != ':' && s[i] != '/' && s[i] != ' ' ==> Sanitize(s)[i] == s[i]
  {
    SanitizeAt(s);
  }

  /** A dict's name is its sanitised "fecha_hora" followed by ".json", and that
      stem is a safe file name of the same length as the base. */
  lemma NameShape(doc: Document, original: string)
    requires doc.JsonObject?
    ensures var name := NameForDate(doc, original);
      var stem := name[..|name| - 5];
      && EndsWith(name, JSON_EXT)
      && |stem| == |NameBase(doc.fields)|
      && stem == Sanitize(NameBase(doc.fields))
      && !Contains(stem, ':') && !Contains(stem, '/') && !Contains(stem, ' ')
  {
    var stem := Sanitize(NameBase(doc.fields));
    var name := stem + JSON_EXT;
    SanitizeAt(NameBase(doc.fields));
    SanitizeSafe(NameBase(doc.fields));
    assert name[..|name| - 5] == stem;
    assert name[|name| - 5..] == JSON_EXT;
  }

  /** The name depends only on the fecha and hora fields: two dicts that
      agree on them (present with the same value, or both absent) get the same name. */
  lemma NameDependsOnDateFields(d1: Document, d2: Document, o1: string, o2: string)
    requires d1.JsonObject? && d2.JsonObject?
    requires (FECHA_KEY in d1.fields <==> FECHA_KEY in d2.fields)
    requires (HORA_KEY in d1.fields <==> HORA_KEY in d2.fields)
    requires FECHA_KEY in d1.fields ==> d1.fields[FECHA_KEY] == d2.fields[FECHA_KEY]
    requires HORA_KEY in d1.fields ==> d1.fields[HORA_KEY] == d2.fields[HORA_KEY]
    ensures NameForDate(d1, o1) == NameForDate(d2, o2)
  {
    assert NameBase(d1.fields) == NameBase(d2.fields);
  }

  /** A record with neither field is named "sin_fecha_sin_hora.json". */
  lemma MissingFieldsName(fields: map<string, Json>, original: string)
    requires FECHA_KEY !in fields && HORA_KEY !in fields
    ensures NameForDate(JsonObject(fields), original) == "sin_fecha_sin_hora.json"
  {
    var base := NameBase(fields);
    assert base == "sin_fecha_sin_hora";
    SanitizeKeeps(base);
  }

  /** Text that is already safe is left as it is. */
  lemma SanitizeKeeps(s: string)
    requires forall i :: 0 <= i < |s| ==> SafeChar(s[i]) == s[i]
    ensures Sanitize(s) == s
  {
    SanitizeAt(s);
  }

  /** The worked example of the naming rule: fecha "2025-12-20" and hora "08:00". */
  lemma NameExample(fields: map<string, Json>, original: string)
    requires FECHA_KEY in fields && fields[FECHA_KEY] == JString("2025-12-20")
    requires HORA_KEY in fields && fields[HORA_KEY] == JString("08:00")
    ensures NameForDate(JsonObject(fields), original) == "2025-12-20_08-00.json"
  {
    var head, tail := "2025-12-20_08", "00";
    assert NameBase(fields) == head + ":" + tail;
    SanitizeOneColon(head, tail);
    assert head + "-" + tail + JSON_EXT == "2025-12-20_08-00.json";
  }

  /** Safe text on both sides of one ':' only has that character replaced. */
  lemma SanitizeOneColon(a: string, b: string)
    requires forall i :: 0 <= i < |a| ==> SafeChar(a[i]) == a[i]
    requires forall i :: 0 <= i < |b| ==> SafeChar(b[i]) == b[i]
    ensures Sanitize(a + ":" + b) == a + "-" + b
  {
    var s := a + ":" + b;
    var t := a + "-" + b;
    SanitizeAt(s);
    forall i | 0 <= i < |s|
      ensures Sanitize(s)[i] == t[i]
    {
      if i < |a| {
        assert s[i] == a[i] && t[i] == a[i];
      } else if i == |a| {
        assert s[i] == ':' && t[i] == '-';
      } else {
        assert s[i] == b[i - |a| - 1] && t[i] == b[i - |a| - 1];
      }
    }
  }

  /** For a name stem + ".json" in whose stem ".json" does not occur, the suffixed name is
      stem_<six digits>.json: a different name, ending in ".json", from whose
      digits the microseconds are read back. */
  lemma SuffixedShape(stem: string, micros: Micros)
    requires !Occurs(JSON_EXT, stem)
    ensures Pow10(6) == 1000000
    ensures Suffixed(stem + JSON_EXT, micros) == stem + "_" + Fixed(micros, 6) + JSON_EXT
    ensures Suffixed(stem + JSON_EXT, micros) != stem + JSON_EXT
    ensures EndsWith(Suffixed(stem + JSON_EXT, micros), JSON_EXT)
    ensures ParseDecimal(Suffixed(stem + JSON_EXT, micros)[|stem| + 1..|stem| + 7]) == micros
  {
    assert Pow10(6) == 1000000;
    RemoveJsonSuffix(stem);
    var r := stem + "_" + Fixed(micros, 6) + JSON_EXT;
    assert |r| == |stem| + 12;
    assert r[|stem| + 1..|stem| + 7] == Fixed(micros, 6);
    assert r[|r| - 5..] == JSON_EXT;
    FixedRoundTrip(micros, 6);
  }

  /** A suffixed name always ends in ".json". */
  lemma SuffixedEndsWithJson(name: string, micros: Micros)
    ensures EndsWith(Suffixed(name, micros), JSON_EXT)
  {
    var r := Suffixed(name, micros);
    assert r[|r| - 5..] == JSON_EXT;
  }
}
