/** The `InvalidArgumentError` class of utils.js (lines 5-14): the one error
    every validated predicate throws when its argument has the wrong shape. */
module Errors {
  import opened JsRuntime

  /** The fields an `InvalidArgumentError` carries once constructed. */
  datatype InvalidArgumentError = InvalidArgumentError(
    name: string,
    functionName: string,
    expected: string,
    received: Value,
    message: string)

  /** The kind of the received value as the message reports it: `"null"`
      for null (where `typeof` would say `"object"`), `typeof` otherwise. */
  function ReceivedKind(received: Value): (k: string)
    ensures k == "null" <==> received.Null?
    ensures k == "object" <==> received.BoxedStr? || received.Array? || received.Object?
    ensures k in {"undefined", "null", "boolean", "number", "string", "symbol", "function", "object"}
  {
    if received == Null then "null" else TypeOf(received)
  }

  /** The text placed before the received kind in every message. */
  function MessagePrefix(functionName: string, expected: string): string {
    functionName + "(): expected " + expected + ", but received "
  }

  /** The constructor: stores its three arguments unchanged, sets the name,
      and builds the message from the operation, the expected shape and the
      kind of the received value. */
  function NewInvalidArgumentError(functionName: string, expected: string, received: Value)
    : (e: InvalidArgumentError)
    ensures e.name == "InvalidArgumentError"
    ensures e.functionName == functionName && e.expected == expected && e.received == received
    ensures e.message == MessagePrefix(functionName, expected) + ReceivedKind(received)
  {
    InvalidArgumentError(
      "InvalidArgumentError",
      functionName,
      expected,
      received,
      MessagePrefix(functionName, expected) + ReceivedKind(received))
  }

  /** From the same throw site, two errors carry the same message exactly
      when their received values are of the same kind: the message keeps
      the kind and forgets everything else about the value. */
  lemma {:induction false} MessageDeterminedByKind(
    functionName: string, expected: string, a: Value, b: Value)
    ensures NewInvalidArgumentError(functionName, expected, a).message
         == NewInvalidArgumentError(functionName, expected, b).message
        <==> ReceivedKind(a) == ReceivedKind(b)
  {
    var p := MessagePrefix(functionName, expected);
    var ma := NewInvalidArgumentError(functionName, expected, a).message;
    var mb := NewInvalidArgumentError(functionName, expected, b).message;
    if ma == mb {
      assert ReceivedKind(a) == ma[|p|..];
      assert ReceivedKind(b) == mb[|p|..];
    }
  }

  /** The message can be read back: it starts with the operation's name and
      the expected shape and ends with the received kind. */
  lemma {:induction false} MessageReadsBack(functionName: string, expected: string, received: Value)
    ensures var m := NewInvalidArgumentError(functionName, expected, received).message;
      var p := MessagePrefix(functionName, expected);
      |p| <= |m| && m[..|functionName|] == functionName && m[|p|..] == ReceivedKind(received)
  {
    var m := NewInvalidArgumentError(functionName, expected, received).message;
    var p := MessagePrefix(functionName, expected);
    assert m == p + ReceivedKind(received);
    assert p == functionName + ("(): expected " + expected + ", but received ");
    assert m[..|functionName|] == p[..|functionName|];
  }
}
