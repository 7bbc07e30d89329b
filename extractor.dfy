/**
 * The message extractor: the text shown for one message — its date, its
 * senders, its subject and its body. The library's renderings
 * (Date.toString, Address.toString, a body part's content as text) are
 * carried as strings; the HTML sanitizer is a parameter.
 */
module Extractor {
  import opened Outcomes
  import opened Mail

  /** A sender address, by its rendering (Address.toString). */
  datatype Address = Address(text: string)

  /**
   * The body as the message's MIME type presents it: text/plain with its
   * text, a multipart type with each body part's content as text, or any
   * other type.
   */
  datatype Content =
    | PlainText(text: string)
    | Multipart(parts: seq<string>)
    | OtherType(mimeType: string)

  /**
   * A fetched message. None stands for a null header: the sent date (as
   * rendered by Date.toString), the sender array, the subject.
   */
  datatype Message = Message(
    sentDate: Option<string>, from: Option<seq<Address>>, subject: Option<string>, content: Content)

  /** Strings appended one after another into one builder, with no separator. */
  function Flatten(pieces: seq<string>): string {
    if pieces == [] then [] else Flatten(pieces[..|pieces| - 1]) + pieces[|pieces| - 1]
  }

  lemma {:induction false} FlattenAppend(a: seq<string>, b: seq<string>)
    ensures Flatten(a + b) == Flatten(a) + Flatten(b)
    decreases |b|
  {
    if b == [] {
      assert a + b == a;
    } else {
      var n := |b|;
      assert (a + b)[..|a + b| - 1] == a + b[..n - 1];
      assert (a + b)[|a + b| - 1] == b[n - 1];
      FlattenAppend(a, b[..n - 1]);
      calc {
        Flatten(a + b);
        Flatten(a + b[..n - 1]) + b[n - 1];
        (Flatten(a) + Flatten(b[..n - 1])) + b[n - 1];
        Flatten(a) + (Flatten(b[..n - 1]) + b[n - 1]);
        Flatten(a) + Flatten(b);
      }
    }
  }

  /** Cutting the pieces anywhere cuts the flattened string at the same place. */
  lemma FlattenCut(pieces: seq<string>, k: nat)
    requires k <= |pieces|
    ensures Flatten(pieces) == Flatten(pieces[..k]) + Flatten(pieces[k..])
  {
    assert pieces[..k] + pieces[k..] == pieces;
    FlattenAppend(pieces[..k], pieces[k..]);
  }

  /** The flattened string of a non-empty prefix ends with its last piece. */
  lemma FlattenPrefix(pieces: seq<string>, i: nat)
    requires i < |pieces|
    ensures Flatten(pieces[..i + 1]) == Flatten(pieces[..i]) + pieces[i]
  {
    assert pieces[..i + 1][..i] == pieces[..i];
  }

  /**
   * Piece i lies in the flattened string right after the pieces before it
   * and right before the pieces after it: nothing is inserted between them.
   */
  lemma FlattenSplit(pieces: seq<string>, i: nat)
    requires i < |pieces|
    ensures Flatten(pieces) == Flatten(pieces[..i]) + pieces[i] + Flatten(pieces[i + 1..])
  {
    FlattenCut(pieces, i + 1);
    FlattenPrefix(pieces, i);
  }

  /** A character occurs in the flattened string iff it occurs in some piece. */
  lemma {:induction false} FlattenChars(pieces: seq<string>, c: char)
    ensures c in Flatten(pieces) <==> exists i :: 0 <= i < |pieces| && c in pieces[i]
  {
    if pieces != [] {
      var n := |pieces|;
      var init, last := pieces[..n - 1], pieces[n - 1];
      FlattenChars(init, c);
      assert c in Flatten(pieces) <==> c in Flatten(init) || c in last;
      if c in Flatten(init) {
        var i :| 0 <= i < n - 1 && c in init[i];
        assert init[i] == pieces[i];
      }
      if exists i :: 0 <= i < n && c in pieces[i] {
        var i :| 0 <= i < n && c in pieces[i];
        if i < n - 1 {
          assert init[i] == pieces[i];
        }
      }
    }
  }

  // ---------------------------------------------------------------------
  // getDate, getFrom, getSubject
  // ---------------------------------------------------------------------

  /** getDate: the sent date's rendering; a null date throws. */
  function GetDate(m: Message): Result<string, MailError> {
    if m.sentDate.None? then Err(MissingHeader) else Ok(m.sentDate.value)
  }

  /** getSubject: the subject, null when the message has none. */
  function GetSubject(m: Message): Option<string> {
    m.subject
  }

  function Texts(addresses: seq<Address>): (r: seq<string>)
    ensures |r| == |addresses| && forall i :: 0 <= i < |addresses| ==> r[i] == addresses[i].text
  {
    seq(|addresses|, i requires 0 <= i < |addresses| => addresses[i].text)
  }

  /** What getFrom yields: the senders' renderings run together; a null sender array throws. */
  function FromText(m: Message): Result<string, MailError> {
    if m.from.None? then Err(MissingHeader) else Ok(Flatten(Texts(m.from.value)))
  }

  /**
   * The sender line is every sender's rendering, in order, end to end: for
   * each sender, its rendering sits between those of the senders before and
   * after it, with no separator; no senders give the empty string.
   */
  lemma FromTextLayout(m: Message)
    ensures FromText(m).Err? <==> m.from.None?
    ensures m.from == Some([]) ==> FromText(m) == Ok("")
    ensures m.from.Some? ==> forall i :: 0 <= i < |m.from.value| ==>
              var texts := Texts(m.from.value);
              FromText(m).value == Flatten(texts[..i]) + m.from.value[i].text + Flatten(texts[i + 1..])
  {
    if m.from.Some? {
      forall i | 0 <= i < |m.from.value|
        ensures FromText(m).value == Flatten(Texts(m.from.value)[..i]) + m.from.value[i].text + Flatten(Texts(m.from.value)[i + 1..])
      {
        FlattenSplit(Texts(m.from.value), i);
      }
    }
  }

  method GetFrom(m: Message) returns (r: Result<string, MailError>)
    ensures r == FromText(m)
  {
    if m.from.None? {
      return Err(MissingHeader);
    }
    var addresses := m.from.value;
    var sb := "";
    for i := 0 to |addresses|
      invariant sb == Flatten(Texts(addresses[..i]))
    {
      assert Texts(addresses[..i + 1])[..i] == Texts(addresses[..i]);
      sb := sb + addresses[i].text;
    }
    assert addresses[..|addresses|] == addresses;
    r := Ok(sb);
  }

  // ---------------------------------------------------------------------
  // getContent
  // ---------------------------------------------------------------------

  /** Every body part run through the sanitizer, in part order. */
  function Sanitized(parts: seq<string>, sanitize: string -> string): (r: seq<string>)
    ensures |r| == |parts| && forall i :: 0 <= i < |parts| ==> r[i] == sanitize(parts[i])
  {
    seq(|parts|, i requires 0 <= i < |parts| => sanitize(parts[i]))
  }

  /**
   * getContent: text/plain gives its text unchanged; multipart gives the
   * sanitized text of every body part, whatever its own type, appended in
   * part order; any other type gives the empty string.
   */
  method GetContent(m: Message, sanitize: string -> string) returns (body: string)
    ensures m.content.PlainText? ==> body == m.content.text
    ensures m.content.Multipart? ==> body == Flatten(Sanitized(m.content.parts, sanitize))
    ensures m.content.OtherType? ==> body == ""
  {
    var sb := "";
    if m.content.PlainText? {
      sb := sb + m.content.text;
    }
    if m.content.Multipart? {
      var parts := m.content.parts;
      for i := 0 to |parts|
        invariant sb == Flatten(Sanitized(parts[..i], sanitize))
      {
        assert Sanitized(parts[..i + 1], sanitize)[..i] == Sanitized(parts[..i], sanitize);
        sb := sb + sanitize(parts[i]);
      }
      assert parts[..|parts|] == parts;
    }
    body := sb;
  }

  /**
   * A multipart body is the concatenation of the bodies of its parts taken
   * separately: splitting the part list splits the text at the same place.
   */
  lemma MultipartBodySplits(a: seq<string>, b: seq<string>, sanitize: string -> string)
    ensures Flatten(Sanitized(a + b, sanitize)) == Flatten(Sanitized(a, sanitize)) + Flatten(Sanitized(b, sanitize))
  {
    assert Sanitized(a + b, sanitize) == Sanitized(a, sanitize) + Sanitized(b, sanitize);
    FlattenAppend(Sanitized(a, sanitize), Sanitized(b, sanitize));
  }

  /**
   * No markup survives: if the sanitizer never emits an angle bracket, no
   * multipart body contains one, whatever the parts held.
   */
  lemma MultipartBodyHasNoMarkup(parts: seq<string>, sanitize: string -> string)
    requires forall s :: '<' !in sanitize(s) && '>' !in sanitize(s)
    ensures '<' !in Flatten(Sanitized(parts, sanitize)) && '>' !in Flatten(Sanitized(parts, sanitize))
  {
    FlattenChars(Sanitized(parts, sanitize), '<');
    FlattenChars(Sanitized(parts, sanitize), '>');
  }
}
