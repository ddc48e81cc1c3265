/** Field validation as pydantic performs it when a model is built from a dict
    (`Model(**d)`, a request body): a required field must be present with the
    right type, an optional one takes its default when absent. `None` is a
    validation error. */
module Pydantic {
  import opened Common

  /** A required `str` field. */
  function ReqStr(fields: seq<Field>, k: string): (r: Option<string>)
    ensures r.Some? <==> Get(fields, k).Some? && Get(fields, k).value.Str?
    ensures r.Some? ==> Get(fields, k) == Some(Str(r.value))
  {
    match Get(fields, k)
    case Some(Str(s)) => Some(s)
    case _ => None
  }

  /** A `str` field with a default. */
  function StrOr(fields: seq<Field>, k: string, default: string): (r: Option<string>)
    ensures Get(fields, k).None? ==> r == Some(default)
    ensures Get(fields, k).Some? ==> (r.Some? <==> Get(fields, k).value.Str?)
    ensures Get(fields, k).Some? && r.Some? ==> Get(fields, k) == Some(Str(r.value))
  {
    match Get(fields, k)
    case None => Some(default)
    case Some(Str(s)) => Some(s)
    case Some(_) => None
  }

  /** An `Optional[str]` field with a default: null is `None`. */
  function OptStrOr(fields: seq<Field>, k: string, default: string): (r: Option<Option<string>>)
    ensures Get(fields, k).None? ==> r == Some(Some(default))
    ensures Get(fields, k) == Some(Null) ==> r == Some(None)
    ensures forall s :: Get(fields, k) == Some(Str(s)) ==> r == Some(Some(s))
  {
    match Get(fields, k)
    case None => Some(Some(default))
    case Some(Null) => Some(None)
    case Some(Str(s)) => Some(Some(s))
    case Some(_) => None
  }

  /** A `bool` field with a default. */
  function BoolOr(fields: seq<Field>, k: string, default: bool): (r: Option<bool>)
    ensures Get(fields, k).None? ==> r == Some(default)
    ensures forall b :: Get(fields, k) == Some(Bool(b)) ==> r == Some(b)
  {
    match Get(fields, k)
    case None => Some(default)
    case Some(Bool(b)) => Some(b)
    case Some(_) => None
  }

  /** A required `datetime` field. */
  function ReqTime(fields: seq<Field>, k: string): (r: Option<int>)
    ensures r.Some? <==> Get(fields, k).Some? && Get(fields, k).value.Time?
    ensures r.Some? ==> Get(fields, k) == Some(Time(r.value))
  {
    match Get(fields, k)
    case Some(Time(t)) => Some(t)
    case _ => None
  }

  /** A `datetime` field whose default factory is `datetime.now`. */
  function TimeOr(fields: seq<Field>, k: string, now: int): (r: Option<int>)
    ensures Get(fields, k).None? ==> r == Some(now)
    ensures forall t :: Get(fields, k) == Some(Time(t)) ==> r == Some(t)
  {
    match Get(fields, k)
    case None => Some(now)
    case Some(Time(t)) => Some(t)
    case Some(_) => None
  }

  /** An `Optional[datetime] = None` field. */
  function OptTime(fields: seq<Field>, k: string): (r: Option<Option<int>>)
    ensures Get(fields, k).None? || Get(fields, k) == Some(Null) ==> r == Some(None)
    ensures forall t :: Get(fields, k) == Some(Time(t)) ==> r == Some(Some(t))
  {
    match Get(fields, k)
    case None => Some(None)
    case Some(Null) => Some(None)
    case Some(Time(t)) => Some(Some(t))
    case Some(_) => None
  }

  function DumpOptStr(s: Option<string>): Value {
    match s
    case None => Null
    case Some(x) => Str(x)
  }

  function DumpOptTime(t: Option<int>): Value {
    match t
    case None => Null
    case Some(x) => Time(x)
  }

  /** `List[T]`: every item must validate. */
  function ParseList<T>(items: seq<Value>, parse: Value -> Option<T>): (r: Option<seq<T>>)
    ensures r.Some? ==> |r.value| == |items|
    ensures r.Some? ==> forall i :: 0 <= i < |items| ==> parse(items[i]) == Some(r.value[i])
    ensures r.None? ==> exists i :: 0 <= i < |items| && parse(items[i]).None?
  {
    if |items| == 0 then Some([])
    else
      var x := parse(items[0]);
      var rest := ParseList(items[1..], parse);
      if x.None? then None
      else if rest.None? then
        assert parse(items[1..][0]).None? || exists i :: 1 <= i < |items| && parse(items[i]).None?;
        None
      else Some([x.value] + rest.value)
  }

  function DumpList<T>(xs: seq<T>, dump: T -> Value): (r: seq<Value>)
    ensures |r| == |xs| && forall i :: 0 <= i < |xs| ==> r[i] == dump(xs[i])
  {
    seq(|xs|, i requires 0 <= i < |xs| => dump(xs[i]))
  }

  /** A list of values whose dumps validate back validates back as a whole. */
  lemma {:induction false} ListRoundTrip<T(!new)>(xs: seq<T>, dump: T -> Value, parse: Value -> Option<T>)
    requires forall i :: 0 <= i < |xs| ==> parse(dump(xs[i])) == Some(xs[i])
    ensures ParseList(DumpList(xs, dump), parse) == Some(xs)
  {
    if |xs| > 0 {
      assert DumpList(xs, dump)[1..] == DumpList(xs[1..], dump);
      ListRoundTrip(xs[1..], dump, parse);
      assert xs == [xs[0]] + xs[1..];
    }
  }

  /** One entry of a `Dict[str, T]`, in insertion order. */
  datatype Entry<+T> = Entry(name: string, value: T)

  /** `Dict[str, T]`: every value must validate. */
  function ParseDict<T>(fields: seq<Field>, parse: Value -> Option<T>): (r: Option<seq<Entry<T>>>)
    ensures r.Some? ==> |r.value| == |fields|
    ensures r.Some? ==> forall i :: 0 <= i < |fields| ==> r.value[i].name == fields[i].key && parse(fields[i].value) == Some(r.value[i].value)
  {
    if |fields| == 0 then Some([])
    else
      var x := parse(fields[0].value);
      var rest := ParseDict(fields[1..], parse);
      if x.None? || rest.None? then None
      else Some([Entry(fields[0].key, x.value)] + rest.value)
  }

  function DumpDict<T>(es: seq<Entry<T>>, dump: T -> Value): (r: seq<Field>)
    ensures |r| == |es| && forall i :: 0 <= i < |es| ==> r[i] == Field(es[i].name, dump(es[i].value))
  {
    seq(|es|, i requires 0 <= i < |es| => Field(es[i].name, dump(es[i].value)))
  }

  lemma {:induction false} DictRoundTrip<T(!new)>(es: seq<Entry<T>>, dump: T -> Value, parse: Value -> Option<T>)
    requires forall i :: 0 <= i < |es| ==> parse(dump(es[i].value)) == Some(es[i].value)
    ensures ParseDict(DumpDict(es, dump), parse) == Some(es)
  {
    if |es| > 0 {
      assert DumpDict(es, dump)[1..] == DumpDict(es[1..], dump);
      DictRoundTrip(es[1..], dump, parse);
      assert es == [es[0]] + es[1..];
    }
  }
}
