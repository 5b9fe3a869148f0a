/** Parameter values as they appear in component parameter dictionaries. */
module Values {
  datatype Value =
    | VNone
    | VBool(b: bool)
    | VInt(i: int)
    | VStr(s: string)
    | VList(items: seq<Value>)
    | VDict(entries: map<string, Value>)

  /** The parameters of one component: parameter name to value. */
  type Params = map<string, Value>

  /** A pipeline's parameter dictionary: component name to its parameters. */
  type ParamsDict = map<string, Params>
}
