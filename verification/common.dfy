/** Values shared by every part of the dashboard model. */
module Common {

  datatype Option<T> = None | Some(value: T) {
    function GetOr(default: T): T {
      match this
      case Some(v) => v
      case None => default
    }
  }

  /** A computation that either produces a value or throws an Error with a message. */
  datatype Result<T> = Ok(value: T) | Err(message: string)

  /**
   * A JavaScript value as it can appear in a data row. A Date is an object:
   * `ref` is its identity (what `Object.is` compares) and `time` its getTime().
   */
  datatype Value =
    | Undefined
    | Null
    | Bool(b: bool)
    | Num(n: int)
    | Str(s: string)
    | Date(ref: nat, time: int)

  /** A record id (`ValidId`, `GridRowId`): a number or a string. */
  datatype RowId = NumId(n: int) | StrId(s: string)

  /** A plain JavaScript object: its own enumerable string-keyed properties. */
  type Row = map<string, Value>

  /** Property read `row[key]`: a missing property reads as undefined. */
  function Get(row: Row, key: string): Value {
    if key in row then row[key] else Undefined
  }

  /** The JavaScript `??` test: null and undefined are "nullish". */
  predicate IsNullish(v: Value) {
    v.Undefined? || v.Null?
  }

  /** A promise created by a dialog request; `resolve` settles it once. */
  class Promise {
    var settled: Option<Value>

    constructor()
      ensures settled == None
    {
      settled := None;
    }

    /** Resolving an already settled promise has no effect. */
    method Resolve(v: Value)
      modifies this
      ensures settled == if old(settled).None? then Some(v) else old(settled)
    {
      if settled.None? {
        settled := Some(v);
      }
    }
  }
}
