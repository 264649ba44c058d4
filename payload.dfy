/**
 * The multipart payload the edit screen sends on submit (EditRecipe.jsx, lines 126-137).
 * It walks the recipe's keys in order and appends one part per key: every key but
 * `image` as a text part with its value; the `image` key as a file part when it holds a
 * File picked by the user, as the flag `deleteImage` = "true" when it is `null`, and not
 * at all otherwise (a stored image the server sent, or anything else). A part is written
 * as the name and the value appended under it; how FormData turns values into text and
 * lays the parts out on the wire is not part of this model.
 */
module FormPayload {
  import opened Wrappers
  import opened Records

  /** The parts the `image` key contributes, by its value. */
  function ImageParts(v: Value): seq<Entry> {
    match v
    case Picked(_) => [Entry("image", v)]
    case Null => [Entry("deleteImage", Str("true"))]
    case _ => []
  }

  /** The parts one key of the recipe contributes. */
  function EntryParts(e: Entry): seq<Entry> {
    if e.key == "image" then ImageParts(e.value) else [e]
  }

  /** The parts of the whole recipe, key after key. */
  function Payload(s: seq<Entry>): seq<Entry>
    decreases |s|
  {
    if |s| == 0 then [] else Payload(s[..|s| - 1]) + EntryParts(s[|s| - 1])
  }

  /** The loop at lines 127-137, appending to the form data in place. */
  method BuildPayload(recipe: Record) returns (parts: seq<Entry>)
    ensures parts == Payload(recipe)
  {
    parts := [];
    var i := 0;
    while i < |recipe|
      invariant 0 <= i <= |recipe|
      invariant parts == Payload(recipe[..i])
    {
      var e := recipe[i];
      if e.key == "image" {
        match e.value
        case Picked(_) =>
          parts := parts + [Entry("image", e.value)];
        case Null =>
          parts := parts + [Entry("deleteImage", Str("true"))];
        case _ =>
      } else {
        parts := parts + [e];
      }
      assert recipe[..i + 1][..i] == recipe[..i];
      i := i + 1;
    }
    assert recipe[..|recipe|] == recipe;
  }

  /** The number of parts (or entries) named `name`. */
  function Count(s: seq<Entry>, name: string): nat
    decreases |s|
  {
    if |s| == 0 then 0
    else Count(s[..|s| - 1], name) + (if s[|s| - 1].key == name then 1 else 0)
  }

  predicate IsImageName(name: string) {
    name == "image" || name == "deleteImage"
  }

  /** The entry itself unless it is named like an image part. */
  function TextPart(e: Entry): seq<Entry> {
    if IsImageName(e.key) then [] else [e]
  }

  /** The parts that are neither the image nor the deletion flag, in order. */
  function TextFields(s: seq<Entry>): seq<Entry>
    decreases |s|
  {
    if |s| == 0 then [] else TextFields(s[..|s| - 1]) + TextPart(s[|s| - 1])
  }

  lemma {:induction false} PayloadAppend(a: seq<Entry>, b: seq<Entry>)
    ensures Payload(a + b) == Payload(a) + Payload(b)
    decreases |b|
  {
    if |b| > 0 {
      var c := a + b;
      assert c[..|c| - 1] == a + b[..|b| - 1];
      PayloadAppend(a, b[..|b| - 1]);
    } else {
      assert a + b == a;
    }
  }

  lemma {:induction false} CountAppend(a: seq<Entry>, b: seq<Entry>, name: string)
    ensures Count(a + b, name) == Count(a, name) + Count(b, name)
    decreases |b|
  {
    if |b| > 0 {
      var c := a + b;
      assert c[..|c| - 1] == a + b[..|b| - 1];
      CountAppend(a, b[..|b| - 1], name);
    } else {
      assert a + b == a;
    }
  }

  lemma {:induction false} TextFieldsAppend(a: seq<Entry>, b: seq<Entry>)
    ensures TextFields(a + b) == TextFields(a) + TextFields(b)
    decreases |b|
  {
    if |b| > 0 {
      var c := a + b;
      assert c[..|c| - 1] == a + b[..|b| - 1];
      TextFieldsAppend(a, b[..|b| - 1]);
    } else {
      assert a + b == a;
    }
  }

  /** Without an `image` key every entry becomes exactly one text part. */
  lemma {:induction false} PayloadPlain(s: seq<Entry>)
    requires forall j :: 0 <= j < |s| ==> s[j].key != "image"
    ensures Payload(s) == s
    decreases |s|
  {
    if |s| > 0 {
      PayloadPlain(s[..|s| - 1]);
    }
  }

  /** Whether an object has a key, in terms of its last entry and the entries before it. */
  lemma HasKeySnoc(r: Record, k: string)
    requires |r| > 0
    ensures HasKey(r, k) <==> HasKey(r[..|r| - 1], k) || r[|r| - 1].key == k
    ensures r[|r| - 1].key == k ==> !HasKey(r[..|r| - 1], k)
  {
    var init, last := r[..|r| - 1], r[|r| - 1];
    assert init + [last] == r;
    if last.key == k {
      assert forall j :: 0 <= j < |init| ==> init[j].key != k by {
        forall j | 0 <= j < |init| ensures init[j].key != k {
          assert init[j] == r[j];
        }
      }
    } else {
      FindAppend(init, last, k);
    }
  }

  /** A key occurs at most once in an object. */
  lemma {:induction false} CountKeys(r: Record, k: string)
    ensures Count(r, k) == (if HasKey(r, k) then 1 else 0)
    decreases |r|
  {
    if |r| > 0 {
      var init: Record := r[..|r| - 1];
      CountKeys(init, k);
      HasKeySnoc(r, k);
    }
  }

  lemma CountOne(e: Entry, name: string)
    ensures Count([e], name) == (if e.key == name then 1 else 0)
  {
    assert [e][..0] == [];
  }

  /** Replacing a middle piece changes a count by the difference of the pieces' counts. */
  lemma CountReplace(a: seq<Entry>, x: seq<Entry>, y: seq<Entry>, b: seq<Entry>, name: string)
    ensures Count(a + x + b, name) + Count(y, name) == Count(a + y + b, name) + Count(x, name)
  {
    CountAppend(a + x, b, name);
    CountAppend(a, x, name);
    CountAppend(a + y, b, name);
    CountAppend(a, y, name);
  }

  lemma PayloadMiddle(a: seq<Entry>, e: Entry, b: seq<Entry>)
    ensures Payload(a + [e] + b) == Payload(a) + EntryParts(e) + Payload(b)
  {
    PayloadAppend(a + [e], b);
    PayloadAppend(a, [e]);
    assert [e][..0] == [];
  }

  lemma SplitAt(s: seq<Entry>, i: nat)
    requires i < |s|
    ensures s[..i] + [s[i]] + s[i + 1..] == s
  {
  }

  /** Splitting entries around position i splits their payload the same way. */
  lemma PayloadAt(s: seq<Entry>, i: nat)
    requires i < |s|
    ensures Payload(s) == Payload(s[..i]) + EntryParts(s[i]) + Payload(s[i + 1..])
  {
    SplitAt(s, i);
    PayloadMiddle(s[..i], s[i], s[i + 1..]);
  }

  /** Entries between lo and hi that are not the image become one text part each. */
  lemma PayloadPlainSlice(s: seq<Entry>, lo: nat, hi: nat)
    requires lo <= hi <= |s|
    requires forall j :: lo <= j < hi ==> s[j].key != "image"
    ensures Payload(s[lo..hi]) == s[lo..hi]
  {
    var t := s[lo..hi];
    forall j | 0 <= j < |t| ensures t[j].key != "image" {
      assert t[j] == s[lo + j];
    }
    PayloadPlain(t);
  }

  lemma PayloadBefore(s: seq<Entry>, i: nat)
    requires i < |s|
    requires forall j :: 0 <= j < |s| && j != i ==> s[j].key != "image"
    ensures Payload(s[..i]) == s[..i]
  {
    PayloadPlainSlice(s, 0, i);
    assert s[0..i] == s[..i];
  }

  lemma PayloadAfter(s: seq<Entry>, i: nat)
    requires i < |s|
    requires forall j :: 0 <= j < |s| && j != i ==> s[j].key != "image"
    ensures Payload(s[i + 1..]) == s[i + 1..]
  {
    PayloadPlainSlice(s, i + 1, |s|);
    assert s[i + 1..|s|] == s[i + 1..];
  }

  /** The payload of entries whose one `image` entry is at position i. */
  lemma PayloadSplit(s: seq<Entry>, i: nat)
    requires i < |s| && s[i].key == "image"
    requires forall j :: 0 <= j < |s| && j != i ==> s[j].key != "image"
    ensures Payload(s) == s[..i] + ImageParts(s[i].value) + s[i + 1..]
  {
    PayloadAt(s, i);
    PayloadBefore(s, i);
    PayloadAfter(s, i);
  }

  /**
   * The payload is the recipe itself, key for key and in order, with the `image` entry
   * replaced by the parts its value gives (lines 127-136).
   */
  lemma PayloadAround(r: Record)
    requires HasKey(r, "image")
    ensures var i := Find(r, "image");
            Payload(r) == r[..i] + ImageParts(r[i].value) + r[i + 1..]
  {
    PayloadSplit(r, Find(r, "image"));
  }

  /** Without an `image` key the payload is exactly the recipe's text parts. */
  lemma PayloadNoImage(r: Record)
    requires !HasKey(r, "image")
    ensures Payload(r) == r
  {
    PayloadPlain(r);
  }

  /** How many parts named `name` the image slot and the rest of the recipe contribute. */
  lemma CountAround(r: Record, name: string)
    requires HasKey(r, "image")
    ensures var i := Find(r, "image");
            Count(Payload(r), name) + Count([r[i]], name) == Count(r, name) + Count(ImageParts(r[i].value), name)
  {
    var i := Find(r, "image");
    var a, b := r[..i], r[i + 1..];
    PayloadAround(r);
    SplitAt(r, i);
    CountReplace(a, ImageParts(r[i].value), [r[i]], b, name);
  }

  lemma CountImageParts(v: Value, name: string)
    ensures Count(ImageParts(v), name) ==
            if v.Picked? && name == "image" then 1
            else if v.Null? && name == "deleteImage" then 1
            else 0
  {
    match v
    case Picked(_) => CountOne(Entry("image", v), name);
    case Null => CountOne(Entry("deleteImage", Str("true")), name);
    case _ =>
  }

  /** A picked File gives exactly one `image` part; nothing else gives one. */
  lemma ImagePartCount(r: Record)
    ensures Count(Payload(r), "image") == (if Get(r, "image").Some? && Get(r, "image").value.Picked? then 1 else 0)
  {
    CountKeys(r, "image");
    if HasKey(r, "image") {
      var i := Find(r, "image");
      CountAround(r, "image");
      CountOne(r[i], "image");
      CountImageParts(r[i].value, "image");
    } else {
      PayloadNoImage(r);
    }
  }

  /**
   * A `null` image gives one `deleteImage` = "true" part. The only other part of that name
   * is a text part for a key `deleteImage` the recipe itself holds.
   */
  lemma DeleteFlagCount(r: Record)
    ensures Count(Payload(r), "deleteImage") ==
            (if Get(r, "image") == Some(Null) then 1 else 0) + (if HasKey(r, "deleteImage") then 1 else 0)
  {
    CountKeys(r, "deleteImage");
    if HasKey(r, "image") {
      var i := Find(r, "image");
      CountAround(r, "deleteImage");
      CountOne(r[i], "deleteImage");
      CountImageParts(r[i].value, "deleteImage");
    } else {
      PayloadNoImage(r);
    }
  }

  /** One entry's parts hold the same text fields as the entry itself. */
  lemma TextFieldsEntryParts(e: Entry)
    ensures TextFields(EntryParts(e)) == TextPart(e)
  {
    var p := EntryParts(e);
    assert |p| == 1 ==> p[..0] == [];
  }

  /** The text parts are the recipe's other keys with their values, in key order. */
  lemma {:induction false} TextFieldsInKeyOrder(s: seq<Entry>)
    ensures TextFields(Payload(s)) == TextFields(s)
    decreases |s|
  {
    if |s| > 0 {
      var init, last := s[..|s| - 1], s[|s| - 1];
      calc {
        TextFields(Payload(s));
        TextFields(Payload(init) + EntryParts(last));
        { TextFieldsAppend(Payload(init), EntryParts(last)); }
        TextFields(Payload(init)) + TextFields(EntryParts(last));
        { TextFieldsInKeyOrder(init); TextFieldsEntryParts(last); }
        TextFields(init) + TextPart(last);
        TextFields(s);
      }
    }
  }

  /** Every key of the recipe other than the image slot is sent once, with its value. */
  lemma TextFieldSent(r: Record, k: string)
    requires !IsImageName(k) && HasKey(r, k)
    ensures Entry(k, Get(r, k).value) in Payload(r)
    ensures Count(Payload(r), k) == 1
  {
    var p := Find(r, k);
    CountKeys(r, k);
    if HasKey(r, "image") {
      var i := Find(r, "image");
      PayloadAround(r);
      if p < i {
        assert (r[..i] + ImageParts(r[i].value) + r[i + 1..])[p] == r[p];
      } else {
        var q := |r[..i] + ImageParts(r[i].value)| + (p - i - 1);
        assert (r[..i] + ImageParts(r[i].value) + r[i + 1..])[q] == r[p];
      }
      CountAround(r, k);
      CountOne(r[i], k);
      CountImageParts(r[i].value, k);
    } else {
      PayloadNoImage(r);
    }
  }

  /** A picked File is sent as the `image` part, in the image key's place (lines 129-130). */
  lemma PickedImageSent(r: Record, f: File)
    requires Get(r, "image") == Some(Picked(f))
    ensures Payload(r) == r
  {
    var i := Find(r, "image");
    PayloadAround(r);
    assert [r[i]] == ImageParts(r[i].value);
    assert r[..i] + [r[i]] + r[i + 1..] == r;
  }

  /** A `null` image is sent as the flag `deleteImage` = "true", in the image key's place
    * (lines 131-132). */
  lemma NullImageSent(r: Record)
    requires Get(r, "image") == Some(Null)
    ensures var i := Find(r, "image");
            Payload(r) == r[..i] + [Entry("deleteImage", Str("true"))] + r[i + 1..]
  {
    PayloadAround(r);
  }

  /** Any other image value, a stored image included, sends no image-related part at all. */
  lemma OtherImageNotSent(r: Record)
    requires Get(r, "image").Some? && !Get(r, "image").value.Picked? && Get(r, "image").value != Null
    ensures var i := Find(r, "image");
            Payload(r) == r[..i] + r[i + 1..]
  {
    var i := Find(r, "image");
    PayloadAround(r);
    assert ImageParts(r[i].value) == [];
    assert r[..i] + [] == r[..i];
  }
}
