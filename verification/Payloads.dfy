/** JSON payloads as the mappers see them: Python dictionaries, lists and scalars. */
module Payloads {

  datatype Option<+T> = None | Some(value: T)

  datatype Json =
    | JNull
    | JBool(b: bool)
    | JNum(n: int)
    | JStr(s: string)
    | JArr(items: seq<Json>)
    | JObj(fields: Dict)

  datatype Field = Field(name: string, value: Json)

  /** A Python dictionary. `Get` looks a key up and gives None (`JNull`) when it is absent. */
  type Dict = seq<Field>

  function Get(d: Dict, name: string): Json {
    if d == [] then JNull
    else if d[0].name == name then d[0].value
    else Get(d[1..], name)
  }

  /** Python truthiness: `if x`, `not x`, `x or default`. */
  predicate Truthy(j: Json) {
    match j
    case JNull => false
    case JBool(b) => b
    case JNum(n) => n != 0
    case JStr(s) => s != ""
    case JArr(items) => items != []
    case JObj(fields) => fields != []
  }

  /** `for x in (j or [])`: None when Python raises because `j` cannot be iterated. */
  function Iterate(j: Json): Option<seq<Json>> {
    if !Truthy(j) then Some([])
    else match j
      case JArr(items) => Some(items)
      case JStr(s) => Some(seq(|s|, i requires 0 <= i < |s| => JStr([s[i]])))
      case JObj(fields) => Some(seq(|fields|, i requires 0 <= i < |fields| => JStr(fields[i].name)))
      case _ => None
  }

  predicate Contains(s: string, sub: string) {
    sub <= s || (s != "" && Contains(s[1..], sub))
  }

  /** Some string or dictionary key inside `j` contains `tag`; rendering `j` as JSON then contains it too. */
  predicate Mentions(j: Json, tag: string) {
    match j
    case JStr(s) => Contains(s, tag)
    case JArr(items) => exists i :: 0 <= i < |items| && Mentions(items[i], tag)
    case JObj(fields) =>
      exists i :: 0 <= i < |fields| && (Contains(fields[i].name, tag) || Mentions(fields[i].value, tag))
    case _ => false
  }

  // `str.lower` and `str.strip` on ASCII text.

  function LowerChar(c: char): char {
    if 'A' <= c <= 'Z' then ((c as int) + 32) as char else c
  }

  function Lower(s: string): (r: string)
    ensures |r| == |s|
    ensures forall i :: 0 <= i < |s| ==> r[i] == LowerChar(s[i])
  {
    if s == "" then "" else [LowerChar(s[0])] + Lower(s[1..])
  }

  predicate IsSpace(c: char) {
    c == ' ' || c == '\t' || c == '\n' || c == '\r'
  }

  function StripLeft(s: string): string {
    if s != "" && IsSpace(s[0]) then StripLeft(s[1..]) else s
  }

  function StripRight(s: string): string {
    if s != "" && IsSpace(s[|s| - 1]) then StripRight(s[..|s| - 1]) else s
  }

  function Strip(s: string): string {
    StripRight(StripLeft(s))
  }

  // ---- What these read, said without their own recursion ----

  lemma TruthyExactly(j: Json)
    ensures Truthy(j) <==> j !in {JNull, JBool(false), JNum(0), JStr(""), JArr([]), JObj([])}
  {
  }

  /** The value under a key, which a dictionary holds once; null when it is absent. */
  lemma {:induction false} GetExactly(d: Dict, name: string)
    ensures (exists i :: FirstUnder(d, name, i) && Get(d, name) == d[i].value)
         || ((forall i :: 0 <= i < |d| ==> d[i].name != name) && Get(d, name) == JNull)
  {
    if d != [] {
      if d[0].name == name {
        assert FirstUnder(d, name, 0);
      } else {
        GetExactly(d[1..], name);
        if k :| FirstUnder(d[1..], name, k) && Get(d[1..], name) == d[1..][k].value {
          assert forall i :: 0 < i < |d| ==> d[i] == d[1..][i - 1];
          assert FirstUnder(d, name, k + 1) && d[k + 1].value == Get(d, name);
        }
      }
    }
  }

  predicate FirstUnder(d: Dict, name: string, i: int) {
    0 <= i < |d| && d[i].name == name && forall k :: 0 <= k < i ==> d[k].name != name
  }

  predicate FoundAt(s: string, sub: string, i: int) {
    0 <= i <= |s| - |sub| && s[i..i + |sub|] == sub
  }

  lemma {:induction false} ContainedAt(s: string, sub: string) returns (i: nat)
    requires Contains(s, sub)
    ensures FoundAt(s, sub, i)
  {
    if sub <= s {
      i := 0;
    } else {
      var k := ContainedAt(s[1..], sub);
      i := k + 1;
      assert s[i..i + |sub|] == s[1..][k..k + |sub|];
    }
  }

  lemma {:induction false} FoundContains(s: string, sub: string, i: nat)
    requires FoundAt(s, sub, i)
    ensures Contains(s, sub)
    decreases i
  {
    if i > 0 {
      assert s[1..][i - 1..i - 1 + |sub|] == s[i..i + |sub|];
      FoundContains(s[1..], sub, i - 1);
    }
  }

  lemma ContainsExactly(s: string, sub: string)
    ensures Contains(s, sub) <==> exists i :: FoundAt(s, sub, i)
  {
    if Contains(s, sub) {
      var i := ContainedAt(s, sub);
    }
    if i :| FoundAt(s, sub, i) {
      FoundContains(s, sub, i);
    }
  }

  /** Only white space is stripped, and none is left at either end. */
  lemma StripExactly(s: string)
    ensures exists i, j :: Core(s, i, j) && Strip(s) == s[i..j]
  {
    var i := StripLeftAt(s);
    var t := StripLeft(s);
    var j := StripRightAt(t);
    assert s[i..][..j] == s[i..i + j];
    assert forall k :: i <= k < |s| ==> s[k] == t[k - i];
    assert Core(s, i, i + j);
  }

  ghost predicate Core(s: string, i: int, j: int) {
    && 0 <= i <= j <= |s|
    && (forall k :: 0 <= k < i || j <= k < |s| ==> IsSpace(s[k]))
    && (i < j ==> !IsSpace(s[i]) && !IsSpace(s[j - 1]))
  }

  lemma {:induction false} StripLeftAt(s: string) returns (i: nat)
    ensures i <= |s| && StripLeft(s) == s[i..] && forall k :: 0 <= k < i ==> IsSpace(s[k])
    ensures StripLeft(s) != "" ==> !IsSpace(StripLeft(s)[0])
  {
    i := 0;
    if s != "" && IsSpace(s[0]) {
      var k := StripLeftAt(s[1..]);
      assert s[1..][k..] == s[k + 1..];
      assert forall x :: 0 < x < |s| ==> s[x] == s[1..][x - 1];
      i := k + 1;
    }
  }

  lemma {:induction false} StripRightAt(s: string) returns (j: nat)
    ensures j <= |s| && StripRight(s) == s[..j] && forall k :: j <= k < |s| ==> IsSpace(s[k])
    ensures StripRight(s) != "" ==> !IsSpace(StripRight(s)[|StripRight(s)| - 1])
  {
    j := |s|;
    if s != "" && IsSpace(s[|s| - 1]) {
      j := StripRightAt(s[..|s| - 1]);
      assert s[..|s| - 1][..j] == s[..j];
    }
  }
}
