/** Vocabulary shared by the client and the server side of the model: optional
    values, route outcomes, timestamps, the JSON/BSON-like document values that
    pydantic dumps and Mongo stores, and MongoDB object ids. */
module Common {

  datatype Option<+T> = None | Some(value: T)

  /** The outcome of a FastAPI route: a body, or the status code and detail of
      the HTTPException it raises. */
  datatype Response<+T> = Ok(body: T) | Fail(status: int, detail: string)

  /** Timestamps are whole seconds; durations in days are converted with DAY. */
  const DAY: int := 86400

  /** A JSON/BSON document value. Objects keep their fields in insertion order,
      as Python dicts and JavaScript objects do. Datetimes are `Time`. */
  datatype Value =
    | Null
    | Bool(b: bool)
    | Int(i: int)
    | Float(r: real)
    | Str(s: string)
    | Time(t: int)
    | Arr(items: seq<Value>)
    | Obj(fields: seq<Field>)

  datatype Field = Field(key: string, value: Value)

  /** Position of the first field named `k`, or -1. */
  function Find(fields: seq<Field>, k: string): (r: int)
    ensures -1 <= r < |fields|
    ensures r >= 0 ==> fields[r].key == k
    ensures forall j :: 0 <= j < |fields| && (r < 0 || j < r) ==> fields[j].key != k
  {
    if |fields| == 0 then -1
    else if fields[0].key == k then 0
    else
      var j := Find(fields[1..], k);
      if j < 0 then -1 else j + 1
  }

  /** `d.get(k)` on a dict. */
  function Get(fields: seq<Field>, k: string): (r: Option<Value>)
    ensures r.Some? <==> exists j :: 0 <= j < |fields| && fields[j].key == k
  {
    var j := Find(fields, k);
    if j < 0 then None else Some(fields[j].value)
  }

  /** The value of the first field named `k`. */
  lemma GetAt(fields: seq<Field>, j: int, k: string)
    requires 0 <= j < |fields| && fields[j].key == k
    requires forall i :: 0 <= i < j ==> fields[i].key != k
    ensures Find(fields, k) == j
    ensures Get(fields, k) == Some(fields[j].value)
  {
  }

  /** `Get` finds exactly the keys a field list carries. */
  lemma GetKeys(fields: seq<Field>, keys: seq<string>)
    requires |fields| == |keys| && forall j :: 0 <= j < |keys| ==> fields[j].key == keys[j]
    ensures forall k :: Get(fields, k).Some? <==> k in keys
  {
    forall k | k in keys ensures Get(fields, k).Some? {
      var j :| 0 <= j < |keys| && keys[j] == k;
      assert fields[j].key == k;
    }
  }

  lemma GetCons(f: Field, rest: seq<Field>, k: string)
    ensures Get([f] + rest, k) == if f.key == k then Some(f.value) else Get(rest, k)
  {
    assert ([f] + rest)[1..] == rest;
  }

  /** `d[k] = v` on a dict, `{...d, k: v}` on an object: an existing key keeps
      its position and takes the new value, a new key goes at the end. */
  function Put(fields: seq<Field>, k: string, v: Value): (r: seq<Field>)
    ensures Get(r, k) == Some(v)
    ensures forall k' :: k' != k ==> Get(r, k') == Get(fields, k')
    ensures |r| == if Get(fields, k).Some? then |fields| else |fields| + 1
  {
    var j := Find(fields, k);
    if j < 0 then
      assert Find(fields + [Field(k, v)], k) == |fields| by { FindAppend(fields, k, v); }
      PutNewKeepsOthers(fields, k, v);
      fields + [Field(k, v)]
    else
      var r := fields[j := Field(k, v)];
      FindUpdateSame(fields, j, k, Field(k, v));
      PutOldKeepsOthers(fields, j, k, v);
      r
  }

  lemma {:induction false} FindAppend(fields: seq<Field>, k: string, v: Value)
    requires Find(fields, k) < 0
    ensures Find(fields + [Field(k, v)], k) == |fields|
  {
    if |fields| > 0 {
      assert (fields + [Field(k, v)])[1..] == fields[1..] + [Field(k, v)];
      FindAppend(fields[1..], k, v);
    }
  }

  lemma PutNewKeepsOthers(fields: seq<Field>, k: string, v: Value)
    ensures forall k' :: k' != k ==> Get(fields + [Field(k, v)], k') == Get(fields, k')
  {
    forall k' | k' != k
      ensures Get(fields + [Field(k, v)], k') == Get(fields, k')
    {
      FindAppendOther(fields, k', Field(k, v));
    }
  }

  lemma {:induction false} FindAppendOther(fields: seq<Field>, k: string, f: Field)
    requires f.key != k
    ensures Find(fields + [f], k) == Find(fields, k)
  {
    if |fields| > 0 {
      assert (fields + [f])[1..] == fields[1..] + [f];
      FindAppendOther(fields[1..], k, f);
    }
  }

  lemma PutOldKeepsOthers(fields: seq<Field>, j: int, k: string, v: Value)
    requires 0 <= j < |fields| && fields[j].key == k
    ensures forall k' :: k' != k ==> Get(fields[j := Field(k, v)], k') == Get(fields, k')
  {
    forall k' | k' != k
      ensures Get(fields[j := Field(k, v)], k') == Get(fields, k')
    {
      FindUpdateOther(fields, j, k', Field(k, v));
    }
  }

  lemma {:induction false} FindUpdateOther(fields: seq<Field>, j: int, k: string, f: Field)
    requires 0 <= j < |fields| && fields[j].key != k && f.key != k
    ensures Find(fields[j := f], k) == Find(fields, k)
  {
    if j > 0 && fields[0].key != k {
      assert fields[j := f][1..] == fields[1..][j - 1 := f];
      FindUpdateOther(fields[1..], j - 1, k, f);
    } else if j == 0 {
      assert fields[j := f][1..] == fields[1..];
    }
  }

  lemma {:induction false} FindUpdateSame(fields: seq<Field>, j: int, k: string, f: Field)
    requires 0 <= j < |fields| && Find(fields, k) == j && f.key == k
    ensures Find(fields[j := f], k) == j
  {
    if j > 0 {
      assert fields[j := f][1..] == fields[1..][j - 1 := f];
      FindUpdateSame(fields[1..], j - 1, k, f);
    }
  }

  /** A hexadecimal digit, as `bson.ObjectId` accepts in a 24-character id. */
  predicate IsHexDigit(c: char) {
    ('0' <= c <= '9') || ('a' <= c <= 'f') || ('A' <= c <= 'F')
  }

  function LowerHexDigit(c: char): char {
    if 'A' <= c <= 'F' then (c as int - 'A' as int + 'a' as int) as char else c
  }

  /** `ObjectId(s)` for a string `s`: it is valid iff it is 24 hexadecimal
      digits; an id is identified by its lower-case form, which is what
      `str(ObjectId(s))` gives back. */
  function ParseObjectId(s: string): (r: Option<string>)
    ensures r.Some? <==> |s| == 24 && forall i :: 0 <= i < |s| ==> IsHexDigit(s[i])
    ensures r.Some? ==> |r.value| == 24 && forall i :: 0 <= i < 24 ==> '0' <= r.value[i] <= '9' || 'a' <= r.value[i] <= 'f'
  {
    if |s| == 24 && forall i :: 0 <= i < |s| ==> IsHexDigit(s[i])
    then Some(seq(24, i requires 0 <= i < 24 => LowerHexDigit(s[i])))
    else None
  }

  /** The ids the server hands out, `str(result.inserted_id)`, are accepted
      again by `ObjectId(...)` and name the same id. */
  lemma ObjectIdStrRoundTrip(s: string)
    requires ParseObjectId(s).Some?
    ensures ParseObjectId(ParseObjectId(s).value) == ParseObjectId(s)
  {
    var t := ParseObjectId(s).value;
    assert forall i :: 0 <= i < 24 ==> IsHexDigit(t[i]) && LowerHexDigit(t[i]) == t[i];
    assert ParseObjectId(t).value == t;
  }

  /** A canonical id: what `str(ObjectId)` produces. */
  predicate IsCanonicalId(s: string) {
    ParseObjectId(s) == Some(s)
  }
}
