/**
 * The recipe as the edit screen holds it: a plain JavaScript object, that is, string keys
 * in insertion order, each with a value. The screen starts from six empty text fields,
 * replaces the whole object with whatever the server sends on load, and updates it with
 * object spread (`{ ...prev, [name]: value }`), which overwrites an existing key where it
 * stands and appends a new key at the end.
 */
module Records {
  import opened Wrappers
  import Base64

  /** A browser `File` object, identified by its name and an identity of its own. */
  datatype File = File(name: string, id: nat)

  /** The `data` property of a stored image as the server sends it. Any other truthy object
    * is a `Buffer`: one without a `data` array gives `new Uint8Array(undefined)`, which is
    * empty, so it is `Buffer([])`. */
  datatype ImageData =
    | NoData                              // absent, `null`, or any other falsy value
    | Encoded(text: string)               // a string, taken to be base 64 already
    | Buffer(bytes: seq<Base64.byte>)     // a serialised buffer `{ type, data: [bytes] }`

  /** A property value of the recipe object. */
  datatype Value =
    | Null
    | Str(s: string)                                          // text, as typed into a field
    | Picked(file: File)                                      // a File chosen by the user
    | StoredImage(contentType: Option<string>, data: ImageData) // `{ contentType, data }`
    | Other(json: string)            // any other JSON value the server sends, by its JSON text

  datatype Entry = Entry(key: string, value: Value)

  ghost predicate DistinctKeys(s: seq<Entry>) {
    forall i, j :: 0 <= i < j < |s| ==> s[i].key != s[j].key
  }

  /** A JavaScript object: entries in insertion order, no key twice. */
  type Record = s: seq<Entry> | DistinctKeys(s) witness []

  predicate HasKey(s: seq<Entry>, k: string) {
    Find(s, k) < |s|
  }

  /** The position of key `k`, or `|s|` when the object has no such key. */
  function Find(s: seq<Entry>, k: string): (i: nat)
    ensures i <= |s|
    ensures i < |s| ==> s[i].key == k
    ensures forall j :: 0 <= j < i ==> s[j].key != k
    decreases |s|
  {
    if |s| == 0 then 0
    else if s[0].key == k then 0
    else 1 + Find(s[1..], k)
  }

  /** Property access `obj[k]`; None stands for `undefined`. */
  function Get(s: seq<Entry>, k: string): Option<Value> {
    var i := Find(s, k);
    if i < |s| then Some(s[i].value) else None
  }

  /** In an object, the entry at a position is the one property access finds. */
  lemma GetAt(r: Record, i: nat)
    requires i < |r|
    ensures Find(r, r[i].key) == i && Get(r, r[i].key) == Some(r[i].value)
  {
  }

  /** Two entry lists with the same keys in the same places find every key in the same place. */
  lemma FindSameKeys(s: seq<Entry>, t: seq<Entry>, k: string)
    requires |s| == |t| && forall j :: 0 <= j < |s| ==> s[j].key == t[j].key
    ensures Find(s, k) == Find(t, k)
  {
    assert forall j :: 0 <= j < |s| ==> (s[j].key == k <==> t[j].key == k);
  }

  /** Appending an entry for a new key leaves every other key where it was. */
  lemma FindAppend(s: seq<Entry>, e: Entry, k: string)
    requires k != e.key
    ensures Find(s + [e], k) == (if Find(s, k) < |s| then Find(s, k) else |s| + 1)
  {
    var t := s + [e];
    assert forall j :: 0 <= j < |s| ==> t[j] == s[j];
    assert t[|s|] == e;
  }

  /** Object spread `{ ...r, [k]: v }`. */
  function Set(r: Record, k: string, v: Value): (r': Record)
    ensures Get(r', k) == Some(v)
    ensures forall k' :: k' != k ==> Get(r', k') == Get(r, k')
    ensures HasKey(r, k) ==> |r'| == |r| && forall j :: 0 <= j < |r| ==> r'[j].key == r[j].key
    ensures !HasKey(r, k) ==> r' == r + [Entry(k, v)]
  {
    var i := Find(r, k);
    if i < |r| then
      var r': Record := r[i := Entry(k, v)];
      assert forall k' :: Find(r', k') == Find(r, k') by {
        forall k' { FindSameKeys(r', r, k'); }
      }
      r'
    else
      var r': Record := r + [Entry(k, v)];
      assert forall k' :: k' != k ==> Get(r', k') == Get(r, k') by {
        forall k' | k' != k ensures Get(r', k') == Get(r, k') {
          FindAppend(r, Entry(k, v), k');
        }
      }
      GetAt(r', |r|);
      r'
  }

  /** Writing one key twice keeps only the second write. */
  lemma SetTwice(r: Record, k: string, v1: Value, v2: Value)
    ensures Set(Set(r, k, v1), k, v2) == Set(r, k, v2)
  {
    var r1 := Set(r, k, v1);
    if HasKey(r, k) {
      var i := Find(r, k);
      GetAt(r1, i);
      assert Set(r1, k, v2) == r1[i := Entry(k, v2)];
      assert r1[i := Entry(k, v2)] == r[i := Entry(k, v2)];
    } else {
      GetAt(r1, |r|);
      assert Set(r1, k, v2) == r1[|r| := Entry(k, v2)];
    }
  }

  /** Writes to two different keys already in the object can be made in either order. */
  lemma SetSwap(r: Record, a: string, x: Value, b: string, y: Value)
    requires a != b && HasKey(r, a) && HasKey(r, b)
    ensures Set(Set(r, a, x), b, y) == Set(Set(r, b, y), a, x)
  {
    var i, j := Find(r, a), Find(r, b);
    var ra, rb := Set(r, a, x), Set(r, b, y);
    GetAt(ra, j);
    GetAt(rb, i);
    assert Set(ra, b, y) == r[i := Entry(a, x)][j := Entry(b, y)];
    assert Set(rb, a, x) == r[j := Entry(b, y)][i := Entry(a, x)];
  }
}
