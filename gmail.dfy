/**
 * The mailbox records the reminder job reads from the Gmail API (a thread and
 * its messages), reduced to the fields the job uses, and the two lookups it
 * performs on them: `Array.prototype.indexOf` on a message's labels and the
 * case-insensitive header search `getHeaderField`.
 */
module Gmail {
  import opened Wrappers

  datatype Header = Header(name: string, value: string)

  /**
   * One message. `internalDate` is the already-parsed millisecond timestamp;
   * `headers` stands for `payload.headers`.
   */
  datatype Message = Message(
    threadId: string,
    internalDate: int,
    labelIds: seq<string>,
    snippet: string,
    headers: seq<Header>)

  datatype Thread = Thread(id: string, messages: seq<Message>)

  /** Gmail never returns a thread without messages; the job reads the last one unguarded. */
  predicate WellFormed(t: Thread) {
    |t.messages| > 0
  }

  function LastMessage(t: Thread): (m: Message)
    requires WellFormed(t)
    ensures t.messages == t.messages[..|t.messages| - 1] + [m]
  {
    t.messages[|t.messages| - 1]
  }

  /** `s.indexOf(x)`: the first position holding `x`, or -1 when there is none. */
  function IndexOf(s: seq<string>, x: string): (r: int)
    ensures -1 <= r < |s|
    ensures r == -1 <==> x !in s
    ensures 0 <= r ==> s[r] == x && x !in s[..r]
  {
    if s == [] then -1
    else if s[0] == x then 0
    else
      var j := IndexOf(s[1..], x);
      assert s[1..][..j + 1] == s[..j + 2][1..];
      if j == -1 then -1 else j + 1
  }

  predicate IsUpper(c: char) {
    'A' <= c <= 'Z'
  }

  function LowerChar(c: char): (l: char)
    ensures !IsUpper(l)
    ensures !IsUpper(c) ==> l == c
    ensures IsUpper(c) ==> l as int == c as int + 32
  {
    if IsUpper(c) then (c as int + 32) as char else c
  }

  /** `s.toLowerCase()` restricted to the ASCII letters. */
  function ToLower(s: string): (r: string)
    ensures |r| == |s|
    ensures forall i :: 0 <= i < |s| ==> r[i] == LowerChar(s[i])
  {
    if s == [] then [] else [LowerChar(s[0])] + ToLower(s[1..])
  }

  /** The predicate `getHeaderField` hands to `find`: the names agree letter by letter up to case. */
  predicate NameMatches(h: Header, field: string)
    ensures NameMatches(h, field)
        <==> |h.name| == |field| && forall i :: 0 <= i < |field| ==> LowerChar(h.name[i]) == LowerChar(field[i])
  {
    ToLower(h.name) == ToLower(field)
  }

  /** Position of the first header whose name equals `field` up to case, as `find` scans. */
  function FindHeader(headers: seq<Header>, field: string): (r: Option<nat>)
    ensures r.None? <==> forall i :: 0 <= i < |headers| ==> !NameMatches(headers[i], field)
    ensures r.Some? ==>
      && r.value < |headers|
      && NameMatches(headers[r.value], field)
      && forall j :: 0 <= j < r.value ==> !NameMatches(headers[j], field)
  {
    if headers == [] then None
    else if NameMatches(headers[0], field) then Some(0)
    else
      match FindHeader(headers[1..], field)
      case None => None
      case Some(j) => Some(j + 1)
  }

  /** `getHeaderField`: the value of the first matching header, or `null` (None). */
  function GetHeaderField(headers: seq<Header>, field: string): (r: Option<string>)
    ensures r.None? <==> forall i :: 0 <= i < |headers| ==> !NameMatches(headers[i], field)
    ensures r.Some? ==>
      exists i :: && 0 <= i < |headers|
                  && headers[i].value == r.value
                  && NameMatches(headers[i], field)
                  && forall j :: 0 <= j < i ==> !NameMatches(headers[j], field)
  {
    match FindHeader(headers, field)
    case None => None
    case Some(i) => Some(headers[i].value)
  }

  /** The field argument is compared without regard to ASCII case. */
  lemma {:induction false} HeaderFieldCaseInsensitive(headers: seq<Header>, f1: string, f2: string)
    requires ToLower(f1) == ToLower(f2)
    ensures GetHeaderField(headers, f1) == GetHeaderField(headers, f2)
  {
    if headers != [] {
      HeaderFieldCaseInsensitive(headers[1..], f1, f2);
    }
  }

  /** Header names are compared without regard to ASCII case as well. */
  lemma {:induction false} HeaderNamesCaseInsensitive(h1: seq<Header>, h2: seq<Header>, field: string)
    requires |h1| == |h2|
    requires forall i :: 0 <= i < |h1| ==> ToLower(h1[i].name) == ToLower(h2[i].name) && h1[i].value == h2[i].value
    ensures GetHeaderField(h1, field) == GetHeaderField(h2, field)
  {
    if h1 != [] {
      HeaderNamesCaseInsensitive(h1[1..], h2[1..], field);
    }
  }
}
