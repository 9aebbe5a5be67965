/** The loosely typed values a consumer-group settings hash can hold. */
module Values {

  datatype Option<+T> = None | Some(value: T)

  /** One value of a Ruby settings hash.  Hash keys are symbols; they are
      modelled by their names. */
  datatype Value =
    | Nil
    | Str(s: string)
    | Sym(name: string)
    | Int(i: int)
      // A Ruby Float.  No rule looks past its class, so only its integer
      // part is kept; a whole-valued Float is still not an Integer.
    | Float(integerPart: int)
    | Bool(b: bool)
    | Arr(items: seq<Value>)
    | Hash(fields: map<string, Value>)
      // A reference the validator only checks for presence, such as the
      // controller and parser classes of a topic.
    | Opaque(ref: nat)

  /** A whole settings document: the hash handed to the validator. */
  type Doc = map<string, Value>
}
