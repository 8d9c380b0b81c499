/** `JSON.stringify` and `JSON.parse` on bookmark lists, taken abstractly: a piece of text is either
    well-formed JSON, represented by the value it denotes, or text that `JSON.parse` rejects.
    Layout (the two-space indentation of an export) is not represented. */
module JsonText {
  import opened Wrappers
  import opened BookmarkTypes

  /** One element of a parsed array: an object holding exactly the keys of a bookmark record, each
      with a value of its type, or `null`. Objects with missing or extra keys, and elements that are
      neither objects nor `null` (numbers, strings, booleans, arrays), are not represented. */
  datatype Element = Record(fields: Bookmark) | Null

  /** A parsed JSON value: an array, or any other value (an object, a number, a string, ...). */
  datatype Json = JArray(elements: seq<Element>) | JOther

  /** A piece of text. */
  datatype Text = WellFormed(value: Json) | Malformed

  /** The array elements that encode a list of bookmarks. */
  function Elements(bs: seq<Bookmark>): (r: seq<Element>)
    ensures |r| == |bs|
  {
    if bs == [] then [] else [Record(bs[0])] + Elements(bs[1..])
  }

  /** `JSON.stringify(bs)`. */
  function Stringify(bs: seq<Bookmark>): Text {
    WellFormed(JArray(Elements(bs)))
  }

  /** `JSON.parse(t)`: `None` when it throws. */
  function Parse(t: Text): Option<Json> {
    match t
    case WellFormed(v) => Some(v)
    case Malformed => None
  }

  /** The bookmark records of an array, or `None` if some element is `null` (reading a key of
      `null` throws). */
  function Records(es: seq<Element>): (r: Option<seq<Bookmark>>)
    ensures r.Some? ==> |r.value| == |es|
  {
    if es == [] then Some([])
    else match es[0]
      case Null => None
      case Record(b) =>
        match Records(es[1..])
        case None => None
        case Some(rest) => Some([b] + rest)
  }

  /** What parsing `t` as a list of bookmark records yields: `None` when `JSON.parse` throws,
      when the value is not an array, or when an element is `null`. */
  function PayloadRecords(t: Text): Option<seq<Bookmark>> {
    match Parse(t)
    case None => None
    case Some(JOther) => None
    case Some(JArray(es)) => Records(es)
  }

  /** Parsing what was stringified gives back the same list. */
  lemma {:induction false} RecordsOfElements(bs: seq<Bookmark>)
    ensures Records(Elements(bs)) == Some(bs)
  {
    if bs != [] {
      RecordsOfElements(bs[1..]);
      var es := Elements(bs);
      assert es[0] == Record(bs[0]) && es[1..] == Elements(bs[1..]);
      assert [bs[0]] + bs[1..] == bs;
    }
  }

  /** Text written by `JSON.stringify` parses back to the list it was written from. */
  lemma ParseStringify(bs: seq<Bookmark>)
    ensures PayloadRecords(Stringify(bs)) == Some(bs)
  {
    RecordsOfElements(bs);
  }
}
