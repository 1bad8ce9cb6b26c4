/** Request headers as the handlers see them. Node's HTTP parser stores every incoming header
    field under its lower-cased name, so a lookup by a name with an upper-case letter finds
    nothing, whatever the client sent. */
module Headers {
  import opened Wrappers
  import opened Jwt
  import opened Variants

  /** Header fields as a client sends them, names in any case, in order. */
  type Sent = seq<(string, Token)>

  /** `req.headers`: field values under lower-cased names. */
  type Received = map<string, Token>

  function LowerChar(c: char): (r: char)
    ensures 'A' <= c <= 'Z' ==> r as int == c as int + 32
    ensures !('A' <= c <= 'Z') ==> r == c
  {
    if 'A' <= c <= 'Z' then (c as int + 32) as char else c
  }

  /** ASCII lower-casing of a header name. */
  function Lower(name: string): (r: string)
    ensures |r| == |name|
    ensures forall i :: 0 <= i < |name| ==> r[i] == LowerChar(name[i])
  {
    seq(|name|, i requires 0 <= i < |name| => LowerChar(name[i]))
  }

  predicate IsLower(name: string)
  {
    Lower(name) == name
  }

  /** What the parser hands over: each field stored under its lower-cased name, a later field
      replacing an earlier one of the same name. */
  function Receive(sent: Sent): (h: Received)
    ensures forall k :: k in h ==> IsLower(k)
    ensures |sent| > 0 ==> Lower(sent[|sent| - 1].0) in h && h[Lower(sent[|sent| - 1].0)] == sent[|sent| - 1].1
  {
    if |sent| == 0 then map[]
    else
      var last := sent[|sent| - 1];
      assert IsLower(Lower(last.0)) by {
        assert forall i :: 0 <= i < |last.0| ==> LowerChar(LowerChar(last.0[i])) == LowerChar(last.0[i]);
      }
      Receive(sent[..|sent| - 1])[Lower(last.0) := last.1]
  }

  /** `req.headers[name]` */
  function Header(h: Received, name: string): (r: Option<Token>)
    ensures r.Some? <==> name in h
    ensures r.Some? ==> r.value == h[name]
  {
    if name in h then Some(h[name]) else None
  }

  /** `req.headers['orderToken']`, as `getByToken` and `pay` read the order token. */
  function OrderTokenAsWritten(h: Received): Option<Token>
  {
    Header(h, "orderToken")
  }

  /** The order token read under the name the parser actually stores it under. */
  function OrderToken(h: Received): Option<Token>
  {
    Header(h, "ordertoken")
  }

  /** How `getByToken` and `pay` read the order token: as written, or corrected. */
  function ReadOrderToken(v: Variant, h: Received): Option<Token>
  {
    match v
    case AsWritten => OrderTokenAsWritten(h)
    case Corrected => OrderToken(h)
  }

  /** The lookup as written finds no token in any request. */
  lemma AsWrittenFindsNothing(sent: Sent)
    ensures OrderTokenAsWritten(Receive(sent)) == None
  {
    assert Lower("orderToken")[5] == 't';
    assert !IsLower("orderToken");
  }

  /** The corrected lookup reads the token a client sends as `orderToken`, or under any other
      capitalisation of that name. */
  lemma CorrectedReadsSentToken(sent: Sent, name: string, t: Token)
    requires Lower(name) == "ordertoken"
    ensures OrderToken(Receive(sent + [(name, t)])) == Some(t)
  {
    assert (sent + [(name, t)])[|sent|] == (name, t);
  }

  /** The spelling the clients use is one of those. */
  lemma ClientSpellingIsOrderToken()
    ensures Lower("orderToken") == "ordertoken"
  {
    assert Lower("orderToken")[5] == 't';
  }
}
