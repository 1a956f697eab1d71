/**
 * The content script's debug log (extension/content.js): every step is
 * pushed onto one array, and whatever metadata comes with it is first
 * turned into plain data by `serializeMeta`, so that it survives being
 * posted to the extension.
 */
module ContentLog {
  import opened Wrappers

  /** The JavaScript values a log entry's metadata can hold. */
  datatype Meta =
    | Null
    | Undefined
    | Bool(b: bool)
    | Num(n: int)
    | Str(s: string)
    | Arr(items: seq<Meta>)
    | Obj(fields: seq<Field>)
    | Error(message: string)
    | Function(name: string)

  /** One own enumerable property of an object, in `Object.entries` order. */
  datatype Field = Field(key: string, value: Meta)

  /** Plain data: no `Error` and no function anywhere inside. */
  predicate IsPlain(m: Meta) {
    match m
    case Arr(items) => forall i :: 0 <= i < |items| ==> IsPlain(items[i])
    case Obj(fields) => forall i :: 0 <= i < |fields| ==> IsPlain(fields[i].value)
    case Error(_) => false
    case Function(_) => false
    case _ => true
  }

  /** The keys of an object's fields, in order. */
  function Keys(fields: seq<Field>): seq<string> {
    seq(|fields|, i requires 0 <= i < |fields| => fields[i].key)
  }

  /**
   * `serializeMeta`: arrays and objects are rebuilt element by element,
   * an `Error` becomes its message, a function its name (or the word
   * `function` when it has none), and everything else is kept.
   */
  function SerializeMeta(m: Meta): (r: Meta)
    ensures IsPlain(r)
    ensures IsPlain(m) ==> r == m
    ensures m.Arr? ==> r.Arr? && |r.items| == |m.items|
    ensures m.Arr? ==> forall i :: 0 <= i < |m.items| ==> r.items[i] == SerializeMeta(m.items[i])
    ensures m.Obj? ==> r.Obj? && Keys(r.fields) == Keys(m.fields)
    ensures m.Obj? ==> forall i :: 0 <= i < |m.fields| ==> r.fields[i].value == SerializeMeta(m.fields[i].value)
    ensures m.Error? ==> r == Str(m.message)
    ensures m.Function? ==> r == Str(if m.name != "" then m.name else "function")
    decreases m
  {
    match m
    case Arr(items) =>
      var out := seq(|items|, i requires 0 <= i < |items| => SerializeMeta(items[i]));
      assert IsPlain(m) ==> out == items;
      Arr(out)
    case Obj(fields) =>
      var out := seq(|fields|, i requires 0 <= i < |fields| => Field(fields[i].key, SerializeMeta(fields[i].value)));
      assert IsPlain(m) ==> out == fields;
      assert Keys(out) == Keys(fields);
      Obj(out)
    case Error(message) => Str(message)
    case Function(name) => Str(if name == "" then "function" else name)
    case _ => m
  }

  /** One pushed entry; the timestamp is not modelled. */
  datatype Entry = Entry(step: string, meta: Option<Meta>)

  /** The `debugLogs` array and the `debugLog` function that fills it. */
  class DebugLog {
    var entries: seq<Entry>

    /** Every recorded piece of metadata is plain data. */
    predicate Valid()
      reads this
    {
      forall i :: 0 <= i < |entries| ==> entries[i].meta.Some? ==> IsPlain(entries[i].meta.value)
    }

    constructor()
      ensures entries == [] && Valid()
    {
      entries := [];
    }

    /**
     * `debugLog(step, meta)`: appends one entry; `meta` is recorded,
     * serialised, unless it is `undefined`.
     */
    method Log(step: string, meta: Meta)
      requires Valid()
      modifies this
      ensures Valid()
      ensures entries == old(entries) + [Entry(step, if meta == Undefined then None else Some(SerializeMeta(meta)))]
    {
      var entry := Entry(step, None);
      if meta != Undefined {
        entry := entry.(meta := Some(SerializeMeta(meta)));
      }
      entries := entries + [entry];
    }
  }
}
