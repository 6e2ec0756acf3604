/** A reader of JSON texts without white space (RFC 8259), for any text: values nested to any depth, integers for
    numbers. A later member of an object replaces an earlier one of the same name. */
module JsonReader {
  import opened Common
  import opened JsonText
  import opened CanonicalText

  predicate StartsWith(t: Text, word: string) {
    |t| >= |word| && forall i :: 0 <= i < |word| ==> t[i] == word[i] as int
  }

  predicate NextIs(t: Text, c: char) {
    t != [] && t[0] == c as int
  }

  function ReadValue(t: Text): (r: Read<Value>)
    ensures r.Read? ==> |r.rest| < |t|
    decreases |t|, 0
  {
    if StartsWith(t, "null") then Read(VNull, t[4..])
    else if StartsWith(t, "true") then Read(VBool(true), t[4..])
    else if StartsWith(t, "false") then Read(VBool(false), t[5..])
    else if NextIs(t, '"') then
      var r := ReadQuoted(t);
      if r.Unreadable? then Unreadable else Read(VString(r.value), r.rest)
    else if NextIs(t, '[') then
      if NextIs(t[1..], ']') then Read(VArray([]), t[2..])
      else
        var r := ReadItems(t[1..]);
        if r.Unreadable? then Unreadable else Read(VArray(r.value), r.rest)
    else if NextIs(t, '{') then
      if NextIs(t[1..], '}') then Read(VObject(map[]), t[2..])
      else
        var r := ReadMembers(t[1..]);
        if r.Unreadable? then Unreadable else Read(VObject(ObjectOf(r.value)), r.rest)
    else
      var r := ReadInteger(t);
      if r.Unreadable? then Unreadable else Read(VNumber(r.value), r.rest)
  }

  /** The items of an array up to its closing bracket; there is at least one. */
  function ReadItems(t: Text): (r: Read<seq<Value>>)
    ensures r.Read? ==> |r.rest| < |t|
    decreases |t|, 1
  {
    var item := ReadValue(t);
    if item.Unreadable? then Unreadable
    else if NextIs(item.rest, ']') then Read([item.value], item.rest[1..])
    else if NextIs(item.rest, ',') then
      var more := ReadItems(item.rest[1..]);
      if more.Unreadable? then Unreadable else Read([item.value] + more.value, more.rest)
    else Unreadable
  }

  /** A name, a colon and a value. */
  function ReadMember(t: Text): (r: Read<(Text, Value)>)
    ensures r.Read? ==> |r.rest| < |t|
    decreases |t|, 0
  {
    var name := ReadQuoted(t);
    if name.Unreadable? || !NextIs(name.rest, ':') then Unreadable
    else
      var v := ReadValue(name.rest[1..]);
      if v.Unreadable? then Unreadable else Read((name.value, v.value), v.rest)
  }

  /** The members of an object up to its closing brace; there is at least one. */
  function ReadMembers(t: Text): (r: Read<seq<(Text, Value)>>)
    ensures r.Read? ==> |r.rest| < |t|
    decreases |t|, 1
  {
    var member := ReadMember(t);
    if member.Unreadable? then Unreadable
    else if NextIs(member.rest, '}') then Read([member.value], member.rest[1..])
    else if NextIs(member.rest, ',') then
      var more := ReadMembers(member.rest[1..]);
      if more.Unreadable? then Unreadable else Read([member.value] + more.value, more.rest)
    else Unreadable
  }

  /** A member counts unless a later one has its name. */
  function ObjectOf(members: seq<(Text, Value)>): map<Text, Value> {
    if members == [] then map[]
    else
      var later := ObjectOf(members[1..]);
      if members[0].0 in later then later else later[members[0].0 := members[0].1]
  }

  /** `JSON.parse` of a whole text. */
  function ReadText(t: Text): Option<Value> {
    var r := ReadValue(t);
    if r.Read? && r.rest == [] then Some(r.value) else None
  }
}
