/** The array and object checks of utils.js (lines 95-109): `isEmptyArray`
    and `isEmptyObject`. */
module CollectionChecks {
  import opened JsRuntime
  import opened Wrappers
  import opened TypeChecks
  import opened Errors

  /** The number of own enumerable string keys (`Object.keys(value).length`)
      of a value `isObject` admits: a plain object's properties, or one
      index key per character of a boxed string. */
  function OwnKeyCount(v: Value): (n: nat)
    requires IsObject(v)
    ensures n == 0 <==> v == Object(map[]) || v == BoxedStr("")
  {
    match v
    case Object(props) => |props|
    case BoxedStr(s) => |s|
  }

  /** `isEmptyArray`: an array argument is required; the result says
      whether it has no elements. */
  function IsEmptyArray(v: Value): (r: Result<bool, InvalidArgumentError>)
    ensures r.Err? <==> !IsArray(v)
    ensures r.Err? ==> r.error == NewInvalidArgumentError("isEmptyArray", "an array", v)
    ensures r == Ok(true) <==> v == Array([])
    ensures r == Ok(false) <==> v.Array? && |v.elems| > 0
  {
    if !IsArray(v) then Err(NewInvalidArgumentError("isEmptyArray", "an array", v))
    else Ok(|v.elems| == 0)
  }

  /** `isEmptyObject`: an argument `isObject` admits is required (so arrays,
      null and functions are refused); the result says whether it has no
      own enumerable keys. */
  function IsEmptyObject(v: Value): (r: Result<bool, InvalidArgumentError>)
    ensures r.Err? <==> !(v.Object? || v.BoxedStr?)
    ensures r.Err? ==> r.error == NewInvalidArgumentError("isEmptyObject", "an object", v)
    ensures r == Ok(true) <==> v == Object(map[]) || v == BoxedStr("")
  {
    if !IsObject(v) then Err(NewInvalidArgumentError("isEmptyObject", "an object", v))
    else Ok(OwnKeyCount(v) == 0)
  }

  /** The text of the message `isEmptyObject` builds for an array. */
  lemma ObjectGotObjectMessage()
    ensures MessagePrefix("isEmptyObject", "an object") + "object"
         == "isEmptyObject(): expected an object, but received object"
  {
  }

  /** An array is of type object but not an object to `isEmptyObject`: the
      call throws, and the message misleadingly reports "object". */
  lemma ArrayIsNotAnObject(elems: seq<Value>)
    ensures IsEmptyObject(Array(elems)).Err?
    ensures IsEmptyObject(Array(elems)).error.message
         == "isEmptyObject(): expected an object, but received object"
  {
    var e := NewInvalidArgumentError("isEmptyObject", "an object", Array(elems));
    assert IsEmptyObject(Array(elems)).error == e;
    assert e.message == MessagePrefix("isEmptyObject", "an object") + "object";
    ObjectGotObjectMessage();
  }

  /** The text of the message `isEmptyObject(null)` carries. */
  lemma ObjectGotNullMessage()
    ensures MessagePrefix("isEmptyObject", "an object") + "null"
         == "isEmptyObject(): expected an object, but received null"
  {
  }

  /** The text of the message `isEmptyArray(null)` carries. */
  lemma ArrayGotNullMessage()
    ensures MessagePrefix("isEmptyArray", "an array") + "null"
         == "isEmptyArray(): expected an array, but received null"
  {
  }

  /** `null` passes neither guard, and both messages report "null" rather
      than "object", though its type is object. */
  lemma NullIsNeitherObjectNorArray()
    ensures IsEmptyObject(Null).Err? && IsEmptyArray(Null).Err?
    ensures IsEmptyObject(Null).error.message
         == "isEmptyObject(): expected an object, but received null"
    ensures IsEmptyArray(Null).error.message
         == "isEmptyArray(): expected an array, but received null"
  {
    var e := NewInvalidArgumentError("isEmptyObject", "an object", Null);
    assert IsEmptyObject(Null).error == e;
    assert e.message == MessagePrefix("isEmptyObject", "an object") + "null";
    ObjectGotNullMessage();
    var f := NewInvalidArgumentError("isEmptyArray", "an array", Null);
    assert IsEmptyArray(Null).error == f;
    assert f.message == MessagePrefix("isEmptyArray", "an array") + "null";
    ArrayGotNullMessage();
  }
}
