/** A JSON document as the parser library presents it: a tree of values. */
module Json {
  import opened Wrappers

  datatype Json =
    | JNull
    | JBool(b: bool)
    | JNumber(n: int)
    | JString(str: string)
    | JArray(items: seq<Json>)
    | JObject(members: seq<(string, Json)>)

  /** Value::FindMember: the first member with the given name. */
  function Member(j: Json, key: string): (r: Option<Json>)
    requires j.JObject?
    ensures r.None? <==> forall k :: 0 <= k < |j.members| ==> j.members[k].0 != key
    ensures r.Some? ==> exists k :: 0 <= k < |j.members| && j.members[k] == (key, r.value)
                                   && forall i :: 0 <= i < k ==> j.members[i].0 != key
  {
    MemberIn(j.members, key)
  }

  function MemberIn(ms: seq<(string, Json)>, key: string): (r: Option<Json>)
    ensures r.None? <==> forall k :: 0 <= k < |ms| ==> ms[k].0 != key
    ensures r.Some? ==> exists k :: 0 <= k < |ms| && ms[k] == (key, r.value)
                                   && forall i :: 0 <= i < k ==> ms[i].0 != key
  {
    if |ms| == 0 then None
    else if ms[0].0 == key then
      assert ms[0] == (key, ms[0].1);
      Some(ms[0].1)
    else
      var r := MemberIn(ms[1..], key);
      if r.Some? then
        var k :| 0 <= k < |ms[1..]| && ms[1..][k] == (key, r.value)
                 && forall i :: 0 <= i < k ==> ms[1..][i].0 != key;
        assert ms[k + 1] == (key, r.value);
        assert forall i :: 0 <= i < k + 1 ==> ms[i].0 != key by {
          forall i | 0 <= i < k + 1 ensures ms[i].0 != key {
            if i > 0 { assert ms[i] == ms[1..][i - 1]; }
          }
        }
        r
      else r
  }

  predicate HasMember(j: Json, key: string) {
    j.JObject? && Member(j, key).Some?
  }

  /** Value::GetString, which the library only allows on a string value. */
  function GetString(j: Json): (r: Result<string>)
    ensures j.JString? <==> r.Ok?
    ensures r.Ok? ==> r.value == j.str
  {
    if j.JString? then Ok(j.str) else Err(UndefinedBehaviour("GetString on a value that is not a string"))
  }
}
