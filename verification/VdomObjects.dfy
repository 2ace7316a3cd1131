/** JavaScript objects that serve as dictionaries.  A look-up by name in such an object also finds what
    every object inherits, which is never undefined and is not one of the values entered. */
module VdomObjects {

  /** The names of Object.prototype. */
  predicate Inherited(key: string) {
    || key == "constructor" || key == "hasOwnProperty" || key == "isPrototypeOf" || key == "propertyIsEnumerable"
    || key == "toString" || key == "toLocaleString" || key == "valueOf" || key == "__proto__"
    || key == "__defineGetter__" || key == "__defineSetter__" || key == "__lookupGetter__"
    || key == "__lookupSetter__"
  }

  /** How an inherited function reads when it is taken for a string. */
  function NativeText(key: string): (s: string)
    ensures s != ""
  {
    "function " + key + "() { [native code] }"
  }

  /** No inherited name ends like this. */
  lemma EndsOtherwise(key: string)
    requires |key| > 0 && key[|key| - 1] == 'L'
    ensures !Inherited(key)
  {
  }

  /** An inherited name has no prefix. */
  lemma NoPrefix(key: string)
    requires Inherited(key)
    ensures ':' !in key
  {
  }

  lemma OddLetter(key: string) returns (i: nat)
    requires Inherited(key) && key != "constructor"
    ensures i < |key| && !('a' <= key[i] <= 'z')
  {
    i := if key == "toString" || key == "toLocaleString" || key == "isPrototypeOf" then 2
      else if key == "hasOwnProperty" then 3
      else if key == "valueOf" then 5
      else if key == "propertyIsEnumerable" then 8
      else 0;
  }

  /** Names of small letters are not inherited, but for one. */
  lemma LowerCase(key: string)
    requires forall i :: 0 <= i < |key| ==> 'a' <= key[i] <= 'z'
    ensures Inherited(key) <==> key == "constructor"
  {
    if Inherited(key) && key != "constructor" {
      var i := OddLetter(key);
      assert false;
    }
  }
}
