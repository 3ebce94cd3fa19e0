/**
 * Event-type names as the bus and the units use them: the `removeOn` rewrite
 * that turns a DOM-style "onChange" into the bus name "change".
 */
module EventNames {

  predicate IsUpper(c: char) { 'A' <= c <= 'Z' }

  predicate IsLower(c: char) { 'a' <= c <= 'z' }

  function ToLower(c: char): (r: char)
    requires IsUpper(c)
    ensures IsLower(r)
  {
    (c as int + 32) as char
  }

  function ToUpper(c: char): (r: char)
    requires IsLower(c)
    ensures IsUpper(r)
  {
    (c as int - 32) as char
  }

  /** The name matches the pattern `^on([A-Z])`. */
  predicate HasOnPrefix(s: string) {
    |s| >= 3 && s[0] == 'o' && s[1] == 'n' && IsUpper(s[2])
  }

  /**
   * Drops a leading "on" that is followed by a capital letter and lower-cases
   * that one letter; any other name is returned unchanged.
   */
  function RemoveOn(s: string): (r: string)
    ensures HasOnPrefix(s) ==> |r| == |s| - 2 && r[1..] == s[3..] && IsLower(r[0])
    ensures !HasOnPrefix(s) ==> r == s
  {
    if HasOnPrefix(s) then [ToLower(s[2])] + s[3..] else s
  }

  /** The DOM-style name of a bus event that starts with a lower-case letter. */
  function AddOn(s: string): (r: string)
    requires |s| > 0 && IsLower(s[0])
    ensures HasOnPrefix(r) && |r| == |s| + 2
  {
    "on" + [ToUpper(s[0])] + s[1..]
  }

  /** `removeOn` undoes the DOM-style spelling. */
  lemma RemoveOnAddOn(s: string)
    requires |s| > 0 && IsLower(s[0])
    ensures RemoveOn(AddOn(s)) == s
  {
    var t := AddOn(s);
    assert t[2] == ToUpper(s[0]) && t[3..] == s[1..];
    assert [s[0]] + s[1..] == s;
  }

  /** A name is left alone exactly when it does not carry the prefix. */
  lemma RemoveOnFixedPoint(s: string)
    ensures RemoveOn(s) == s <==> !HasOnPrefix(s)
  {
    if HasOnPrefix(s) {
      assert |RemoveOn(s)| != |s|;
    }
  }

  /**
   * Rewriting a second time changes the name again exactly when the name
   * starts with "onOn" followed by a capital letter.
   */
  lemma RemoveOnTwice(s: string)
    ensures RemoveOn(RemoveOn(s)) == RemoveOn(s)
        <==> !(|s| >= 5 && s[..4] == "onOn" && IsUpper(s[4]))
  {
    var r := RemoveOn(s);
    RemoveOnFixedPoint(r);
    if |s| >= 5 && s[..4] == "onOn" && IsUpper(s[4]) {
      assert s[0] == 'o' && s[1] == 'n' && s[2] == 'O' && s[3] == 'n';
      assert r[0] == 'o' && r[1] == s[3] && r[2] == s[4];
      assert HasOnPrefix(r);
    }
  }

  /** An example of a name that the rewrite does not leave at a fixed point. */
  lemma RemoveOnNotIdempotent()
    ensures RemoveOn("onOnX") == "onX" && RemoveOn("onX") == "x"
  {
    assert HasOnPrefix("onOnX");
    assert "onOnX"[3..] == "nX";
    assert HasOnPrefix("onX");
    assert "onX"[3..] == "";
  }
}
