/** The records shared by the on-chain program and the client: the per-user
    post counter `PostlyAccountIndex`, one post `PostlyAccount`, their derived
    Borsh encoders and decoders, and the client's error type `PostlyError`. */
module Util {
  import opened Wrappers
  import opened Borsh
  import Utf8

  /** The two ways a client command fails. */
  datatype PostlyError = PostError | AccountError

  /** The `Display` rendering of an error. */
  function Display(e: PostlyError): (s: string)
    ensures s == "Post Error" <==> e == PostError
    ensures s == "Account Error" <==> e == AccountError
  {
    match e
    case PostError => "Post Error"
    case AccountError => "Account Error"
  }

  /** Distinct errors are rendered as distinct messages. */
  lemma DisplayInjective(e: PostlyError, f: PostlyError)
    ensures Display(e) == Display(f) ==> e == f
  {
  }

  /** A Rust `String`: bytes that are well-formed UTF-8. */
  type Text = s: seq<Byte> | Utf8.Valid(s)

  datatype PostlyAccountIndex = PostlyAccountIndex(postN: U32)

  datatype PostlyAccount = PostlyAccount(post: Text)

  // ---------------------------------------------------------------- the index

  /** The index is its one `u32` field: four bytes, little-endian. */
  function SerializeIndex(x: PostlyAccountIndex): (b: seq<Byte>)
    ensures |b| == 4 && LeValue(b) == x.postN
  {
    EncodeU32(x.postN)
  }

  /** `PostlyAccountIndex::deserialize` on a cursor. */
  function DeserializeIndex(buf: seq<Byte>): (r: Result<(PostlyAccountIndex, seq<Byte>), IoError>)
    ensures r.Ok? <==> |buf| >= 4
    ensures r.Ok? ==> buf == SerializeIndex(r.value.0) + r.value.1
  {
    match ReadU32(buf)
    case Err(e) => Err(e)
    case Ok((n, rest)) => Ok((PostlyAccountIndex(n), rest))
  }

  /** `PostlyAccountIndex::try_from_slice`: decoding succeeds exactly on inputs of
      four bytes, and then on the encoding of what it returns. */
  function IndexFromSlice(buf: seq<Byte>): (r: Result<PostlyAccountIndex, IoError>)
    ensures r.Ok? <==> |buf| == 4
    ensures r.Ok? ==> SerializeIndex(r.value) == buf
    ensures |buf| < 4 ==> r == Err(UnexpectedLengthOfInput)
    ensures |buf| > 4 ==> r == Err(NotAllBytesRead)
  {
    match DeserializeIndex(buf)
    case Err(e) => Err(e)
    case Ok((x, rest)) => if rest != [] then Err(NotAllBytesRead) else Ok(x)
  }

  lemma IndexRoundTrip(x: PostlyAccountIndex)
    ensures IndexFromSlice(SerializeIndex(x)) == Ok(x)
  {
    var b := SerializeIndex(x);
    assert LeValue(SerializeIndex(IndexFromSlice(b).value)) == x.postN;
  }

  lemma IndexEncodingInjective(x: PostlyAccountIndex, y: PostlyAccountIndex)
    ensures SerializeIndex(x) == SerializeIndex(y) ==> x == y
  {
    if SerializeIndex(x) == SerializeIndex(y) {
      IndexRoundTrip(x);
      IndexRoundTrip(y);
    }
  }

  /** Four zero bytes, what a freshly allocated index account holds, are the
      encoding of a zero count. */
  lemma ZeroIndex()
    ensures SerializeIndex(PostlyAccountIndex(0)) == [0, 0, 0, 0]
  {
  }

  // ----------------------------------------------------------------- the post

  /** `String::serialize`: the byte length as a `u32`, then the bytes; fails when
      the length does not fit in a `u32`. */
  function EncodeString(s: Text): (r: Result<seq<Byte>, IoError>)
    ensures r.Ok? <==> |s| <= MAX_U32
    ensures r.Ok? ==> |r.value| == 4 + |s| && r.value[..4] == EncodeU32(|s|) && r.value[4..] == s
    ensures r.Err? ==> r.error == LengthOverflow
  {
    if |s| > MAX_U32 then Err(LengthOverflow) else Ok(EncodeU32(|s|) + s)
  }

  /** `String::deserialize` on a cursor: a length, that many bytes, and those
      bytes must be UTF-8. Whatever it accepts is an encoding followed by the
      rest of the input. */
  function ReadString(buf: seq<Byte>): (r: Result<(Text, seq<Byte>), IoError>)
    ensures r.Ok? <==> |buf| >= 4 && LeValue(buf[..4]) <= |buf| - 4 && Utf8.Valid(buf[4..4 + LeValue(buf[..4])])
    ensures r.Ok? ==> EncodeString(r.value.0).Ok? && buf == EncodeString(r.value.0).value + r.value.1
    ensures |buf| < 4 || LeValue(buf[..4]) > |buf| - 4 ==> r == Err(UnexpectedLengthOfInput)
  {
    match ReadU32(buf)
    case Err(e) => Err(e)
    case Ok((len, rest)) =>
      assert len == LeValue(buf[..4]) && rest == buf[4..];
      assert |rest| >= len ==> rest[..len] == buf[4..4 + len];
      if len == 0 then
        var none: Text := [];
        Ok((none, rest))
      else if |rest| < len then Err(UnexpectedLengthOfInput)
      else if !Utf8.Valid(rest[..len]) then Err(InvalidUtf8)
      else
        var text: Text := rest[..len];
        Ok((text, rest[len..]))
  }

  /** The post is its one `String` field. */
  function SerializeAccount(a: PostlyAccount): (r: Result<seq<Byte>, IoError>)
    ensures r.Ok? <==> |a.post| <= MAX_U32
    ensures r.Ok? ==> |r.value| == 4 + |a.post| && LeValue(r.value[..4]) == |a.post| && r.value[4..] == a.post
  {
    EncodeString(a.post)
  }

  /** `PostlyAccount::deserialize` on a cursor. */
  function DeserializeAccount(buf: seq<Byte>): (r: Result<(PostlyAccount, seq<Byte>), IoError>)
    ensures r.Ok? <==> ReadString(buf).Ok?
    ensures r.Ok? ==> SerializeAccount(r.value.0).Ok? && buf == SerializeAccount(r.value.0).value + r.value.1
  {
    match ReadString(buf)
    case Err(e) => Err(e)
    case Ok((s, rest)) => Ok((PostlyAccount(s), rest))
  }

  /** `PostlyAccount::try_from_slice`: succeeds exactly when the length prefix
      accounts for every remaining byte and those bytes are UTF-8, and then the
      input is the encoding of what it returns. */
  function AccountFromSlice(buf: seq<Byte>): (r: Result<PostlyAccount, IoError>)
    ensures r.Ok? <==> |buf| >= 4 && LeValue(buf[..4]) == |buf| - 4 && Utf8.Valid(buf[4..])
    ensures r.Ok? ==> SerializeAccount(r.value) == Ok(buf)
    ensures |buf| < 4 || LeValue(buf[..4]) > |buf| - 4 ==> r == Err(UnexpectedLengthOfInput)
  {
    assert |buf| >= 4 && LeValue(buf[..4]) == |buf| - 4 ==> buf[4..4 + LeValue(buf[..4])] == buf[4..];
    match DeserializeAccount(buf)
    case Err(e) => Err(e)
    case Ok((a, rest)) =>
      if rest != [] then Err(NotAllBytesRead)
      else
        assert buf == SerializeAccount(a).value;
        Ok(a)
  }

  /** A length prefix shorter than the bytes after it leaves bytes unread. */
  lemma AccountTrailingBytes(buf: seq<Byte>)
    requires |buf| >= 4 && LeValue(buf[..4]) < |buf| - 4
    requires Utf8.Valid(buf[4..4 + LeValue(buf[..4])])
    ensures AccountFromSlice(buf) == Err(NotAllBytesRead)
  {
  }

  lemma AccountRoundTrip(a: PostlyAccount)
    requires |a.post| <= MAX_U32
    ensures AccountFromSlice(SerializeAccount(a).value) == Ok(a)
  {
    var b := SerializeAccount(a).value;
    assert b[..4] == EncodeU32(|a.post|) && b[4..] == a.post;
    var r := AccountFromSlice(b);
    assert r.Ok?;
    assert SerializeAccount(r.value).value[4..] == a.post;
  }

  lemma AccountEncodingInjective(a: PostlyAccount, b: PostlyAccount)
    requires SerializeAccount(a).Ok? && SerializeAccount(b).Ok?
    ensures SerializeAccount(a) == SerializeAccount(b) ==> a == b
  {
    if SerializeAccount(a) == SerializeAccount(b) {
      AccountRoundTrip(a);
      AccountRoundTrip(b);
    }
  }
}
