/**
 * Survey answers and response records.
 *
 * A survey answer is a loosely typed JavaScript value; the analytics only
 * tell strings, booleans, numbers and arrays apart, so every other value
 * (null, a plain object) is kept as one of two inert constructors.
 */
module ResponseValues {

  datatype Option<+T> = None | Some(value: T)

  /** `Math.min` on two integers. */
  function Min(a: int, b: int): int { if a <= b then a else b }

  /** The shapes of a survey answer. */
  datatype Value =
    | Str(s: string)
    | Bool(b: bool)
    | Num(x: real)
    | Arr(items: seq<Value>)
    | Null
    | Obj

  /** JavaScript's String(x) for a number: engine formatting, supplied by the caller. */
  type NumberText = real -> string

  /**
   * String(v) for an answer: booleans as "true"/"false", arrays as their
   * elements joined by commas (a null element joins as the empty string).
   */
  function Stringify(v: Value, fmt: NumberText): string
    decreases v
  {
    match v
    case Str(s) => s
    case Bool(b) => if b then "true" else "false"
    case Num(x) => fmt(x)
    case Arr(items) => JoinWithCommas(ElementTexts(items, fmt))
    case Null => "null"
    case Obj => "[object Object]"
  }

  /** The texts Array.prototype.join uses for the elements of an array. */
  function ElementTexts(items: seq<Value>, fmt: NumberText): (r: seq<string>)
    ensures |r| == |items|
    decreases items
  {
    if items == [] then []
    else
      var last := items[|items| - 1];
      ElementTexts(items[..|items| - 1], fmt)
        + [if last.Null? then "" else Stringify(last, fmt)]
  }

  function JoinWithCommas(parts: seq<string>): string
  {
    if parts == [] then ""
    else if |parts| == 1 then parts[0]
    else parts[0] + "," + JoinWithCommas(parts[1..])
  }

  /** Null elements join as empty text, while `null` and objects on their own have their own spellings. */
  lemma StringifyExamples(fmt: NumberText)
    ensures Stringify(Arr([Str("red"), Null, Bool(true)]), fmt) == "red,,true"
    ensures Stringify(Arr([]), fmt) == ""
    ensures Stringify(Null, fmt) == "null" && Stringify(Obj, fmt) == "[object Object]"
  {
    var items := [Str("red"), Null, Bool(true)];
    assert items[..2] == [Str("red"), Null] && items[..2][..1] == [Str("red")];
    assert items[..2][..1][..0] == [];
    assert ElementTexts([Str("red")], fmt) == ["red"];
    assert ElementTexts(items[..2], fmt) == ["red", ""];
    assert ElementTexts(items, fmt) == ["red", "", "true"];
    assert JoinWithCommas(["red", "", "true"]) == "red" + "," + JoinWithCommas(["", "true"]);
    assert ["red", "", "true"][1..] == ["", "true"] && ["", "true"][1..] == ["true"];
  }

  /** A boolean answer and the string spelling it are counted under one key. */
  lemma BooleanSharesKeyWithItsSpelling(b: bool, fmt: NumberText)
    ensures Stringify(Bool(b), fmt) == Stringify(Str(if b then "true" else "false"), fmt)
  {
  }

  /** The answers of one response, in the order their keys were written. */
  type Data = seq<(string, Value)>

  datatype Record = Record(id: string, timestamp: int, classroomId: string, data: Data)

  /** A JavaScript object never holds the same key twice. */
  ghost predicate DistinctKeys(data: Data)
  {
    forall i, j :: 0 <= i < j < |data| ==> data[i].0 != data[j].0
  }

  ghost predicate WellFormed(records: seq<Record>)
  {
    forall i :: 0 <= i < |records| ==> DistinctKeys(records[i].data)
  }

  /** data[key], or None when the key is absent. */
  function Get(data: Data, key: string): (r: Option<Value>)
    ensures r.Some? <==> exists i :: 0 <= i < |data| && data[i].0 == key
    ensures r.Some? ==> exists i :: 0 <= i < |data| && data[i] == (key, r.value)
  {
    if data == [] then None
    else if data[|data| - 1].0 == key then Some(data[|data| - 1].1)
    else
      var r := Get(data[..|data| - 1], key);
      assert forall i :: 0 <= i < |data| - 1 ==> data[..|data| - 1][i] == data[i];
      r
  }

  /** Every key appearing in the data of some record. */
  ghost function AllKeys(records: seq<Record>): set<string>
  {
    set i, j | 0 <= i < |records| && 0 <= j < |records[i].data| :: records[i].data[j].0
  }
}
