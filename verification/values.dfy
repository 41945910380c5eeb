/** Value types shared by the whole model: optional values, results, the
    three-state "nullable key" of a JavaScript object, and JSON documents
    as they arrive in a request body. */
module Values {

  datatype Option<+T> = None | Some(value: T)

  datatype Result<+T, +E> = Ok(value: T) | Err(error: E)

  /** A key of a JavaScript object whose column is nullable: the key may be
      missing altogether, present with `null`, or present with a value.
      Spreading an object (`{...a, ...b}`) copies only the keys `b` has, so
      Absent and Null behave differently in a merge. */
  datatype Nullable<+T> = Absent | Null | Present(value: T)

  /** A parsed JSON value. A number whose value is whole is a `JInt`,
      however it is written (`1`, `1.0` and `1e2` all are); every other
      numeral is a `JFrac`, kept as its text, since no operation of the
      model computes with fractions. */
  datatype Json =
    | JNull
    | JBool(b: bool)
    | JInt(i: int)
    | JFrac(text: string)
    | JStr(s: string)
    | JArr(items: seq<Json>)
    | JObj(fields: map<string, Json>)
}
