/** A Go pointer to a struct value (`*T`) that the callee writes through:
    after the call the caller sees the fields the callee assigned. */
module Pointers {

  class Ref<T> {
    var value: T

    constructor (v: T)
      ensures value == v
    {
      value := v;
    }
  }
}
