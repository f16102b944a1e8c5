/** The laws asked of the libraries can be met: a codec that meets them, by a prefix code for JSON values. */
module LawfulCodec {
  import opened Basics
  import opened TaskMessages

  function Text(s: string): Bytes {
    [|s|] + seq(|s|, i requires 0 <= i < |s| => s[i] as int)
  }

  /** The order in which an object's fields are written: any that depends on the object alone. */
  ghost function FirstName(fields: Fields): (name: string)
    requires fields != map[]
    ensures name in fields
  {
    var name :| name in fields;
    name
  }

  ghost function Code(j: Json): Bytes
    decreases j, if j.JObject? then |j.fields| + 1 else 0
  {
    match j
    case JNull => [0]
    case JBool(b) => [if b then 1 else 7]
    case JInt(n) => [2, n]
    case JFloat(mantissa, exponent) => [3, mantissa, exponent]
    case JString(s) => [4] + Text(s)
    case JArray(items) => [5, |items|] + Items(items)
    case JObject(fields) => [6] + Object(j, fields)
  }

  ghost function Items(items: seq<Json>): Bytes
  {
    if items == [] then [] else Code(items[0]) + Items(items[1..])
  }

  /** The fields still to be written of the object `whole`. */
  ghost function Object(whole: Json, fields: Fields): Bytes
    requires whole.JObject? && fields.Items <= whole.fields.Items
    decreases whole, |fields|
  {
    if fields == map[] then [0]
    else
      var name := FirstName(fields);
      assert (name, fields[name]) in fields.Items;
      [1] + Text(name) + Code(fields[name]) + Object(whole, fields - {name})
  }

  lemma TextPrefix(s: string, t: string, x: Bytes, y: Bytes)
    requires Text(s) + x == Text(t) + y
    ensures s == t && x == y
  {
    assert (Text(s) + x)[0] == |s| && (Text(t) + y)[0] == |t|;
    forall i | 0 <= i < |s| ensures s[i] == t[i] {
      assert (Text(s) + x)[i + 1] == s[i] as int && (Text(t) + y)[i + 1] == t[i] as int;
    }
    assert x == (Text(s) + x)[|s| + 1..] && y == (Text(t) + y)[|t| + 1..];
  }

  /** No code is a proper prefix of another, and different values have different codes. */
  lemma {:induction false} CodePrefix(j: Json, k: Json, x: Bytes, y: Bytes)
    requires Code(j) + x == Code(k) + y
    ensures j == k && x == y
    decreases j, if j.JObject? then |j.fields| + 1 else 0
  {
    assert (Code(j) + x)[0] == (Code(k) + y)[0];
    match j {
      case JNull => SameLength(Code(j), Code(k), x, y);
      case JBool(_) => SameLength(Code(j), Code(k), x, y);
      case JInt(_) => SameLength(Code(j), Code(k), x, y);
      case JFloat(_, _) => SameLength(Code(j), Code(k), x, y);
      case JString(s) =>
        Tail(j, k, x, y, 1);
        TextPrefix(s, k.s, x, y);
      case JArray(items) =>
        assert (Code(j) + x)[1] == (Code(k) + y)[1];
        Tail(j, k, x, y, 2);
        ItemsPrefix(items, k.items, x, y);
      case JObject(fields) =>
        Tail(j, k, x, y, 1);
        ObjectPrefix(j, fields, k, k.fields, x, y);
    }
  }

  lemma SameLength(a: Bytes, b: Bytes, x: Bytes, y: Bytes)
    requires a + x == b + y && |a| == |b|
    ensures a == b && x == y
  {
    assert a == (a + x)[..|a|] && b == (b + y)[..|b|];
    assert x == (a + x)[|a|..] && y == (b + y)[|b|..];
  }

  lemma Tail(j: Json, k: Json, x: Bytes, y: Bytes, n: nat)
    requires Code(j) + x == Code(k) + y && n <= |Code(j)| && n <= |Code(k)|
    ensures Code(j)[n..] + x == Code(k)[n..] + y
  {
    hide Code;
    assert (Code(j) + x)[n..] == Code(j)[n..] + x && (Code(k) + y)[n..] == Code(k)[n..] + y;
  }

  lemma {:induction false} ItemsPrefix(a: seq<Json>, b: seq<Json>, x: Bytes, y: Bytes)
    requires |a| == |b| && Items(a) + x == Items(b) + y
    ensures a == b && x == y
    decreases a
  {
    if a == [] {
      assert Items(a) + x == x && Items(b) + y == y;
    } else {
      assert Items(a) + x == Code(a[0]) + (Items(a[1..]) + x);
      assert Items(b) + y == Code(b[0]) + (Items(b[1..]) + y);
      CodePrefix(a[0], b[0], Items(a[1..]) + x, Items(b[1..]) + y);
      ItemsPrefix(a[1..], b[1..], x, y);
    }
  }

  lemma {:induction false} ObjectPrefix(whole: Json, f: Fields, other: Json, g: Fields, x: Bytes, y: Bytes)
    requires whole.JObject? && f.Items <= whole.fields.Items && other.JObject? && g.Items <= other.fields.Items
    requires Object(whole, f) + x == Object(other, g) + y
    ensures f == g && x == y
    decreases whole, |f|
  {
    hide Code, Text, Object;
    ObjectCode(whole, f, x);
    ObjectCode(other, g, y);
    if f == map[] || g == map[] {
      assert ([0] + x)[1..] == x && ([0] + y)[1..] == y;
    } else {
      var n, m := FirstName(f), FirstName(g);
      var fr, gr := Object(whole, f - {n}) + x, Object(other, g - {m}) + y;
      TextPrefix(n, m, Code(f[n]) + fr, Code(g[m]) + gr);
      CodePrefix(f[n], g[m], fr, gr);
      ObjectPrefix(whole, f - {n}, other, g - {m}, x, y);
      assert f == (f - {n})[n := f[n]] && g == (g - {m})[m := g[m]];
    }
  }

  /** How the code of an object's fields starts. */
  lemma ObjectCode(whole: Json, f: Fields, x: Bytes)
    requires whole.JObject? && f.Items <= whole.fields.Items
    ensures f == map[] ==> Object(whole, f) + x == [0] + x
    ensures f != map[] ==>
              var n := FirstName(f);
              && (n, f[n]) in f.Items && (f - {n}).Items <= whole.fields.Items && |f - {n}| < |f|
              && (Object(whole, f) + x)[0] == 1
              && (Object(whole, f) + x)[1..] == Text(n) + (Code(f[n]) + (Object(whole, f - {n}) + x))
  {
    if f != map[] {
      var n := FirstName(f);
      assert (n, f[n]) in f.Items;
      var rest := f - {n};
      assert f.Keys == rest.Keys + {n};
      Regrouped(Text(n), Code(f[n]), Object(whole, rest), x);
      hide Code, Text;
    }
  }

  lemma Regrouped(a: Bytes, b: Bytes, c: Bytes, x: Bytes)
    ensures ([1] + a + b + c + x)[0] == 1 && ([1] + a + b + c + x)[1..] == a + (b + (c + x))
  {
  }

  ghost predicate IsCode(b: Bytes) {
    exists j: Json :: Code(j) == b
  }

  ghost function Decoded(b: Bytes): Option<Json> {
    if IsCode(b) then var j: Json :| Code(j) == b; Some(j) else None
  }

  lemma DecodedCode(j: Json)
    ensures Decoded(Code(j)) == Some(j)
  {
    var k := Decoded(Code(j)).value;
    assert Code(j) + [] == Code(k) + [];
    CodePrefix(j, k, [], []);
  }

  function Strokes(n: nat): string {
    seq(n + 1, _ => '|')
  }

  function CountStrokes(s: string): Option<ImageId> {
    if s != "" && forall c <- s :: c == '|' then Some(|s| - 1) else None
  }

  /** Some codec is lawful, so what is proved of all lawful codecs is not proved of nothing. */
  lemma LawfulCodecExists()
    ensures exists c: Codec :: Lawful(c)
  {
    var c: Codec := Codec(CountStrokes, Strokes, (j: Json) => if j.JString? then j.s else "None", (_: string) => None,
                          (b: Bytes) => Decoded(b), (fields: Fields) => Code(JObject(fields)), (_: Bytes) => "");
    forall fields: Fields ensures c.loadsBytes(c.dump(fields)) == Some(JObject(fields)) {
      DecodedCode(JObject(fields));
    }
    forall id: ImageId ensures c.parseId(c.showId(id)) == Some(id) && c.showId(id) != "" {
      assert |Strokes(id)| == id + 1;
    }
    assert CountStrokes("None") == None by {
      assert 'N' in "None" by { assert "None"[0] == 'N'; }
    }
    assert Lawful(c);
  }
}
