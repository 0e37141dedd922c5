/**
  The JSON values the client builds with json-glib: strings, integers and
  objects whose members keep their insertion order.
 */
module Json {

  datatype Option<T> = None | Some(value: T)

  datatype Json =
    | JString(str: string)
    | JInt(num: int)
    | JObject(members: seq<Member>)

  datatype Member = Member(key: string, value: Json)

  /** The member names of an object, in order. */
  function Keys(members: seq<Member>): (ks: seq<string>)
    ensures |ks| == |members|
  {
    if members == [] then [] else [members[0].key] + Keys(members[1..])
  }

  /** The value of member `key`, if the object has one. */
  function Get(members: seq<Member>, key: string): (v: Option<Json>)
    ensures v.None? <==> key !in Keys(members)
  {
    if members == [] then None
    else if members[0].key == key then Some(members[0].value)
    else Get(members[1..], key)
  }

  /**
    `json_object_set_member` and its typed variants: the member `key` takes
    `value`, in place if it exists and appended otherwise.
   */
  function SetMember(members: seq<Member>, key: string, value: Json): (m: seq<Member>)
    ensures Get(m, key) == Some(value)
    ensures forall k :: k != key ==> Get(m, k) == Get(members, k)
    ensures key in Keys(members) ==> Keys(m) == Keys(members)
    ensures key !in Keys(members) ==> Keys(m) == Keys(members) + [key]
  {
    if members == [] then [Member(key, value)]
    else if members[0].key == key then [Member(key, value)] + members[1..]
    else
      var rest := SetMember(members[1..], key, value);
      var m := [members[0]] + rest;
      assert m[0] == members[0] && m[1..] == rest;
      assert Keys(m) == [members[0].key] + Keys(rest);
      assert Keys(members) == [members[0].key] + Keys(members[1..]);
      m
  }
}
