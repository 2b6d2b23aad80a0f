/** The multipart body both forms send, built by appending draft fields to a
    `FormData` in `Object.keys` order. */
module FormPayload {
  import opened Options
  import opened JsText
  import opened Objects

  /** One part of a multipart body: text, or the contents of a file. */
  datatype Part = Text(s: string) | Blob(id: nat)

  type Field = (string, Part)

  /** What `FormData.append(key, v)` stores: a File as a file part, any other
      value converted with `String(v)`, so `null` becomes the text "null". */
  function PartOf(v: Value): (p: Part)
    ensures p.Blob? <==> v.File?
    ensures v.File? ==> p == Blob(v.id)
    ensures v.Str? ==> p == Text(v.s)
    ensures v.Num? ==> p == Text(IntText(v.n))
    ensures v.Null? ==> p == Text("null")
    ensures v.Undefined? ==> p == Text("undefined")
    ensures v.Bool? ==> p == Text(if v.b then "true" else "false")
    ensures v.NotANumber? ==> p == Text("NaN")
    ensures v.Other? ==> p == Text(v.text)
  {
    match v
    case Str(s) => Text(s)
    case Num(n) => Text(IntText(n))
    case NotANumber => Text("NaN")
    case Bool(b) => Text(if b then "true" else "false")
    case Null => Text("null")
    case Undefined => Text("undefined")
    case File(id) => Blob(id)
    case Other(t) => Text(t)
  }

  /** The fields appended for the keys `ks` of `o`, one per key, in order. */
  function Fields(o: Obj, ks: seq<string>): (fs: seq<Field>)
    requires forall k :: k in ks ==> k in o.vals
    ensures |fs| == |ks|
    ensures forall i :: 0 <= i < |ks| ==> fs[i] == (ks[i], PartOf(o.vals[ks[i]]))
  {
    if ks == [] then []
    else Fields(o, ks[..|ks| - 1]) + [(ks[|ks| - 1], PartOf(o.vals[ks[|ks| - 1]]))]
  }

  /** Appending one more key appends its one field. */
  lemma FieldsSnoc(o: Obj, ks: seq<string>, k: string)
    requires forall x :: x in ks ==> x in o.vals
    requires k in o.vals
    ensures Fields(o, ks + [k]) == Fields(o, ks) + [(k, PartOf(o.vals[k]))]
  {
    assert (ks + [k])[..|ks|] == ks;
  }

  /** The body of the create request: every key of the draft, in order. */
  function CreateBody(o: Obj): seq<Field> {
    Fields(o, o.keys)
  }

  /** The update form skips a key when `key === 'image' && !formData[key]`. */
  predicate SkipsImage(o: Obj) {
    "image" in o.vals && Falsy(o.vals["image"])
  }

  /** The keys among `ks` that the update form appends. */
  function SentKeys(o: Obj, ks: seq<string>): seq<string> {
    if SkipsImage(o) then Without(ks, "image") else ks
  }

  /** The keys the update form appends. */
  function UpdateKeys(o: Obj): (ks: seq<string>)
    ensures forall k :: k in ks <==> k in o.keys && !(k == "image" && SkipsImage(o))
  {
    SentKeys(o, o.keys)
  }

  /** One turn of the update form's `forEach`: the fields for the first
      `i + 1` keys are those for the first `i`, plus key `i` unless it is
      an `image` holding a falsy value. */
  lemma UpdateFieldsStep(o: Obj, i: nat)
    requires i < |o.keys|
    ensures var k := o.keys[i];
      Fields(o, SentKeys(o, o.keys[..i + 1]))
      == Fields(o, SentKeys(o, o.keys[..i]))
         + (if k == "image" && Falsy(o.vals[k]) then [] else [(k, PartOf(o.vals[k]))])
  {
    assert o.keys[..i + 1] == o.keys[..i] + [o.keys[i]];
    if SkipsImage(o) {
      SkippingStep(o, o.keys[..i], o.keys[i]);
    } else {
      FieldsSnoc(o, o.keys[..i], o.keys[i]);
    }
  }

  /** A turn of the loop when the draft's image is falsy: every key but
      `image` is appended. */
  lemma SkippingStep(o: Obj, done: seq<string>, k: string)
    requires SkipsImage(o) && k in o.vals && forall x :: x in done ==> x in o.vals
    ensures Fields(o, Without(done + [k], "image"))
      == Fields(o, Without(done, "image")) + (if k == "image" then [] else [(k, PartOf(o.vals[k]))])
  {
    WithoutSnoc(done, k, "image");
    if k != "image" {
      FieldsSnoc(o, Without(done, "image"), k);
    }
  }

  /** The body of the update request. */
  function UpdateBody(o: Obj): seq<Field> {
    Fields(o, UpdateKeys(o))
  }

  /** A field is in the update body exactly when the draft has that key with
      that value, unless it is an `image` holding a falsy value. */
  lemma UpdateBodyMembers(o: Obj, k: string, p: Part)
    ensures (k, p) in UpdateBody(o)
      <==> k in o.vals && !(k == "image" && Falsy(o.vals[k])) && p == PartOf(o.vals[k])
  {
    var ks := UpdateKeys(o);
    var body := UpdateBody(o);
    if (k, p) in body {
      var i :| 0 <= i < |body| && body[i] == (k, p);
      assert ks[i] == k;
    }
    if k in o.vals && !(k == "image" && Falsy(o.vals[k])) && p == PartOf(o.vals[k]) {
      assert k in ks;
      var i :| 0 <= i < |ks| && ks[i] == k;
      assert body[i] == (k, p);
    }
  }

  /** When the image is falsy, the update body is the create body with the
      one image field cut out of its place; otherwise the two bodies agree. */
  lemma UpdateBodyCutsEmptyImage(o: Obj) returns (i: nat)
    ensures SkipsImage(o) ==>
              i < |o.keys| && o.keys[i] == "image"
              && UpdateBody(o) == CreateBody(o)[..i] + CreateBody(o)[i + 1..]
    ensures !SkipsImage(o) ==> UpdateBody(o) == CreateBody(o)
  {
    if SkipsImage(o) {
      assert "image" in o.keys;
      i :| 0 <= i < |o.keys| && o.keys[i] == "image";
      CutField(o, i);
    } else {
      i := 0;
    }
  }

  lemma CutField(o: Obj, i: nat)
    requires SkipsImage(o) && i < |o.keys| && o.keys[i] == "image"
    ensures UpdateBody(o) == CreateBody(o)[..i] + CreateBody(o)[i + 1..]
  {
    WithoutAt(o.keys, "image", i);
    FieldsCut(o, o.keys, i);
  }

  /** Leaving out the key at `i` leaves out its field and nothing else. */
  lemma FieldsCut(o: Obj, ks: seq<string>, i: nat)
    requires forall k :: k in ks ==> k in o.vals
    requires i < |ks|
    ensures Fields(o, ks[..i] + ks[i + 1..]) == Fields(o, ks)[..i] + Fields(o, ks)[i + 1..]
  {
    var before, after := ks[..i], ks[i + 1..];
    assert ks == before + [ks[i]] + after;
    FieldsAppend(o, before, after);
    FieldsAppend(o, before + [ks[i]], after);
    FieldsSnoc(o, before, ks[i]);
  }

  /** The fields of two key lists in a row are the fields of each, in a row. */
  lemma {:induction false} FieldsAppend(o: Obj, a: seq<string>, b: seq<string>)
    requires forall k :: k in a ==> k in o.vals
    requires forall k :: k in b ==> k in o.vals
    ensures Fields(o, a + b) == Fields(o, a) + Fields(o, b)
    decreases |b|
  {
    if b == [] {
      assert a + b == a;
    } else {
      var b' := b[..|b| - 1];
      var k := b[|b| - 1];
      assert b == b' + [k];
      assert a + b == (a + b') + [k];
      FieldsAppend(o, a, b');
      FieldsSnoc(o, a + b', k);
      FieldsSnoc(o, b', k);
    }
  }

  /** A draft hydrated from a stored record keeps the record's image path,
      a non-empty string, and the update body sends that path as text. */
  lemma UpdateBodyResendsStoredImagePath(o: Obj, path: string)
    requires Get(o, "image") == Some(Str(path)) && path != ""
    ensures ("image", Text(path)) in UpdateBody(o)
  {
    UpdateBodyMembers(o, "image", Text(path));
  }

  /** The create body sends every key, an unset image as the text "null". */
  lemma CreateBodyMembers(o: Obj, k: string, p: Part)
    ensures (k, p) in CreateBody(o) <==> k in o.vals && p == PartOf(o.vals[k])
  {
    var body := CreateBody(o);
    if (k, p) in body {
      var i :| 0 <= i < |body| && body[i] == (k, p);
      assert o.keys[i] == k;
    }
    if k in o.vals && p == PartOf(o.vals[k]) {
      assert k in o.keys;
      var i :| 0 <= i < |o.keys| && o.keys[i] == k;
      assert body[i] == (k, p);
    }
  }
}
