/** Items and the JSON text (objects: section 4 of RFC 8259) in which they travel through the raft log. */
module ItemCodec {
  import opened Common
  import Base64

  datatype Item = Item(key: Slice, value: Slice)

  /** A freshly declared Item: both slices nil. */
  const FRESH := Item(None, None)

  /** omitempty leaves out nil and empty slices alike, so a round trip turns empty into nil. */
  function OmitEmpty(s: Slice): (slice: Slice) {
    if Bytes(s) == [] then None else s
  }

  function Trimmed(i: Item): (item: Item) {
    Item(OmitEmpty(i.key), OmitEmpty(i.value))
  }

  function Quoted(s: string): (text: string) {
    "\"" + s + "\""
  }

  function Member(name: string, s: Slice): (text: string) {
    Quoted(name) + ":" + Quoted(Base64.Encode(Bytes(s)))
  }

  /** json.Marshal of an Item: the two omitempty members, key first, in compact form. */
  function Marshal(i: Item): (text: string) {
    if Bytes(i.key) == [] then
      if Bytes(i.value) == [] then "{}" else "{" + Member("value", i.value) + "}"
    else if Bytes(i.value) == [] then "{" + Member("key", i.key) + "}"
    else "{" + Member("key", i.key) + "," + Member("value", i.value) + "}"
  }

  datatype Token = Token(text: string, rest: string)

  /** Reads up to the closing quote of a string without escapes. */
  function Scan(t: string): (r: Option<Token>) {
    if t == "" || t[0] == '\\' || t[0] < ' ' then None
    else if t[0] == '"' then Some(Token("", t[1..]))
    else
      match Scan(t[1..])
      case None => None
      case Some(token) => Some(Token([t[0]] + token.text, token.rest))
  }

  function TakeString(t: string): (r: Option<Token>) {
    if t != "" && t[0] == '"' then Scan(t[1..]) else None
  }

  /** Stores one decoded member into the receiver. */
  function SetField(into: Item, name: string, text: string): (item: Option<Item>) {
    match Base64.Decode(text)
    case None => None
    case Some(b) =>
      if name == "key" then Some(into.(key := Some(b)))
      else if name == "value" then Some(into.(value := Some(b)))
      else None
  }

  /** The members of an object after its opening brace or a comma, up to the end of the text. */
  function Members(into: Item, t: string): (item: Option<Item>)
    decreases |t|
  {
    match TakeString(t)
    case None => None
    case Some(name) =>
      TakeStringShrinks(t);
      if name.rest == "" || name.rest[0] != ':' then None
      else
        match TakeString(name.rest[1..])
        case None => None
        case Some(text) =>
          TakeStringShrinks(name.rest[1..]);
          match SetField(into, name.text, text.text)
          case None => None
          case Some(item) =>
            if text.rest == "}" then Some(item)
            else if text.rest != "" && text.rest[0] == ',' then Members(item, text.rest[1..])
            else None
  }

  /**
   * json.Unmarshal of a text into a receiver, which keeps the fields the text does not mention.
   * None stands for an error and for any text outside the compact grammar of quoted members.
   */
  function Unmarshal(into: Item, t: string): (item: Option<Item>) {
    if t == "{}" then Some(into)
    else if t != "" && t[0] == '{' then Members(into, t[1..])
    else None
  }

  lemma {:induction false} ScanShrinks(t: string)
    ensures Scan(t).Some? ==> |Scan(t).value.rest| < |t|
  {
    if t != "" {
      ScanShrinks(t[1..]);
    }
  }

  lemma TakeStringShrinks(t: string)
    ensures TakeString(t).Some? ==> |TakeString(t).value.rest| < |t|
  {
    if t != "" {
      ScanShrinks(t[1..]);
    }
  }

  ghost predicate Plain(s: string) {
    forall k | 0 <= k < |s| :: s[k] != '"' && s[k] != '\\' && s[k] >= ' '
  }

  lemma {:induction false} ScanPlain(s: string, rest: string)
    requires Plain(s)
    ensures Scan(s + "\"" + rest) == Some(Token(s, rest))
  {
    var t := s + "\"" + rest;
    if s == "" {
      assert t[1..] == rest;
    } else {
      assert t[0] == s[0];
      assert t[1..] == s[1..] + "\"" + rest;
      ScanPlain(s[1..], rest);
      assert s == [s[0]] + s[1..];
    }
  }

  lemma TakeQuoted(s: string, rest: string)
    requires Plain(s)
    ensures TakeString(Quoted(s) + rest) == Some(Token(s, rest))
  {
    assert (Quoted(s) + rest)[1..] == s + "\"" + rest;
    ScanPlain(s, rest);
  }

  /** What Members does with one member once both strings are read. */
  lemma MembersReads(into: Item, t: string, name: string, text: string, b: seq<byte>, tail: string, rest: string)
    requires TakeString(t) == Some(Token(name, tail))
    requires tail != "" && tail[0] == ':'
    requires TakeString(tail[1..]) == Some(Token(text, rest))
    requires Base64.Decode(text) == Some(b)
    requires name == "key" || name == "value"
    requires rest == "}" || (rest != "" && rest[0] == ',')
    ensures var item := if name == "key" then into.(key := Some(b)) else into.(value := Some(b));
      Members(into, t) == if rest == "}" then Some(item) else Members(item, rest[1..])
  {
    var item := if name == "key" then into.(key := Some(b)) else into.(value := Some(b));
    assert SetField(into, name, text) == Some(item);
  }

  lemma MemberText(name: string, b: seq<byte>, rest: string)
    ensures var tail := ":" + (Quoted(Base64.Encode(b)) + rest);
      && Member(name, Some(b)) + rest == Quoted(name) + tail
      && tail[0] == ':' && tail[1..] == Quoted(Base64.Encode(b)) + rest
  {
    var text := Quoted(Base64.Encode(b));
    assert Quoted(name) + ":" + text + rest == Quoted(name) + (":" + (text + rest));
  }

  /** One member written by Marshal is read back, and the rest of the text is left. */
  lemma ReadMember(into: Item, name: string, b: seq<byte>, rest: string)
    requires name == "key" || name == "value"
    requires rest == "}" || (rest != "" && rest[0] == ',')
    ensures var item := if name == "key" then into.(key := Some(b)) else into.(value := Some(b));
      Members(into, Member(name, Some(b)) + rest)
      == if rest == "}" then Some(item) else Members(item, rest[1..])
  {
    var text := Base64.Encode(b);
    var tail := ":" + (Quoted(text) + rest);
    Base64.EncodePlain(b);
    Base64.DecodeEncode(b);
    MemberText(name, b, rest);
    TakeQuoted(name, tail);
    TakeQuoted(text, rest);
    MembersReads(into, Quoted(name) + tail, name, text, b, tail, rest);
  }

  lemma ReadBoth(into: Item, k: seq<byte>, v: seq<byte>)
    ensures Members(into, Member("key", Some(k)) + "," + Member("value", Some(v)) + "}") == Some(Item(Some(k), Some(v)))
  {
    var rest := "," + Member("value", Some(v)) + "}";
    JoinMembers(Member("key", Some(k)), Member("value", Some(v)));
    ReadMember(into, "key", k, rest);
    ReadMember(into.(key := Some(k)), "value", v, "}");
  }

  lemma JoinMembers(a: string, b: string)
    ensures a + "," + b + "}" == a + ("," + b + "}")
    ensures ("," + b + "}")[1..] == b + "}"
  {
  }

  lemma UnmarshalBody(into: Item, body: string)
    requires body != "" && body[0] == '"'
    ensures Unmarshal(into, "{" + body) == Members(into, body)
  {
    var t := "{" + body;
    assert t[1] == '"' && t[1..] == body;
  }

  lemma UnmarshalOne(into: Item, name: string, s: Slice)
    requires Bytes(s) != [] && (name == "key" || name == "value")
    ensures Unmarshal(into, "{" + Member(name, s) + "}")
         == Some(if name == "key" then into.(key := s) else into.(value := s))
  {
    assert "{" + Member(name, s) + "}" == "{" + (Member(name, s) + "}");
    UnmarshalBody(into, Member(name, s) + "}");
    ReadMember(into, name, s.value, "}");
  }

  lemma UnmarshalBoth(into: Item, k: Slice, v: Slice)
    requires Bytes(k) != [] && Bytes(v) != []
    ensures Unmarshal(into, "{" + Member("key", k) + "," + Member("value", v) + "}") == Some(Item(k, v))
  {
    var body := Member("key", k) + "," + Member("value", v) + "}";
    assert "{" + Member("key", k) + "," + Member("value", v) + "}" == "{" + body;
    UnmarshalBody(into, body);
    ReadBoth(into, k.value, v.value);
  }

  /** Into any receiver: members present replace its fields, omitted ones keep what it held. */
  lemma UnmarshalInto(into: Item, i: Item)
    ensures Unmarshal(into, Marshal(i))
         == Some(Item(if Bytes(i.key) == [] then into.key else i.key,
                      if Bytes(i.value) == [] then into.value else i.value))
  {
    if Bytes(i.key) != [] && Bytes(i.value) != [] {
      UnmarshalBoth(into, i.key, i.value);
    } else if Bytes(i.key) != [] {
      UnmarshalOne(into, "key", i.key);
    } else if Bytes(i.value) != [] {
      UnmarshalOne(into, "value", i.value);
    }
  }

  lemma KeyMember(s: Slice)
    ensures Member("key", s) == "\"key\":\"" + Base64.Encode(Bytes(s)) + "\""
  {
  }

  lemma ValueMember(s: Slice)
    ensures Member("value", s) == "\"value\":\"" + Base64.Encode(Bytes(s)) + "\""
  {
  }

  /** The text of an item written out, compact: the key before the value. */
  lemma TextOfBoth(i: Item)
    requires Bytes(i.key) != [] && Bytes(i.value) != []
    ensures Marshal(i) == "{\"key\":\"" + Base64.Encode(Bytes(i.key)) + "\",\"value\":\""
                          + Base64.Encode(Bytes(i.value)) + "\"}"
  {
    KeyMember(i.key);
    ValueMember(i.value);
    var k, v := Base64.Encode(Bytes(i.key)), Base64.Encode(Bytes(i.value));
    BraceBoth(Member("key", i.key), Member("value", i.value), k, v);
  }

  /** A member that is nil or empty is left out. */
  lemma TextOfOne(i: Item)
    requires Bytes(i.key) == [] || Bytes(i.value) == []
    ensures Marshal(i)
         == if Bytes(i.key) != [] then "{\"key\":\"" + Base64.Encode(Bytes(i.key)) + "\"}"
            else if Bytes(i.value) != [] then "{\"value\":\"" + Base64.Encode(Bytes(i.value)) + "\"}"
            else "{}"
  {
    if Bytes(i.key) != [] {
      KeyMember(i.key);
      BraceKey(Member("key", i.key), Base64.Encode(Bytes(i.key)));
    } else if Bytes(i.value) != [] {
      ValueMember(i.value);
      BraceValue(Member("value", i.value), Base64.Encode(Bytes(i.value)));
    }
  }

  lemma BraceKey(member: string, k: string)
    requires member == "\"key\":\"" + k + "\""
    ensures "{" + member + "}" == "{\"key\":\"" + k + "\"}"
  {
  }

  lemma BraceValue(member: string, v: string)
    requires member == "\"value\":\"" + v + "\""
    ensures "{" + member + "}" == "{\"value\":\"" + v + "\"}"
  {
  }

  lemma BraceBoth(keyMember: string, valueMember: string, k: string, v: string)
    requires keyMember == "\"key\":\"" + k + "\"" && valueMember == "\"value\":\"" + v + "\""
    ensures "{" + keyMember + "," + valueMember + "}" == "{\"key\":\"" + k + "\",\"value\":\"" + v + "\"}"
  {
  }

  /** The round trip the log relies on: the item comes back, up to nil for empty. */
  lemma RoundTrip(i: Item)
    ensures Unmarshal(FRESH, Marshal(i)) == Some(Trimmed(i))
  {
    UnmarshalInto(FRESH, i);
  }

  /** Two items share a text exactly when they differ at most in nil versus empty. */
  lemma MarshalInjective(i: Item, j: Item)
    ensures Marshal(i) == Marshal(j) <==> Trimmed(i) == Trimmed(j)
  {
    RoundTrip(i);
    RoundTrip(j);
  }

  /** What a decoder of log entries has to do: agree with Unmarshal where the grammar above says something. */
  ghost predicate DecodesItems(decode: string -> Option<Item>) {
    forall t: string :: Unmarshal(FRESH, t).Some? ==> decode(t) == Unmarshal(FRESH, t)
  }
}
