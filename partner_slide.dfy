/** The generated first-partner slide (src/components/dynamic/DynamicSlide9.tsx): the client's
    name with its nullish default, the fallback shown when no partner was chosen, the partner's
    website without its protocol, and the partner's first name. */
module PartnerSlide {
  import opened Options

  /** `selectedPartner`. Its `criteriaChecks` are part of the data but the slide shows none of
      them, so they are not kept here. */
  datatype Partner = Partner(name: string, business: string, website: string, audience: string,
                             problemSolved: string, listSize: string, whyGoodFit: string)

  /** The slide's data; a null or missing `clientName` or `selectedPartner` is `None`. */
  datatype PartnerData = PartnerData(clientName: Option<string>, selectedPartner: Option<Partner>)

  /** `data?.clientName ?? "Client"` (line 45): only a missing name is replaced; an empty
      name is kept. */
  function ClientName(data: Option<PartnerData>): (r: string)
    ensures data.None? || data.value.clientName.None? ==> r == "Client"
    ensures data.Some? && data.value.clientName.Some? ==> r == data.value.clientName.value
  {
    match data
    case None => "Client"
    case Some(d) => d.clientName.GetOr("Client")
  }

  /** `p.website.replace(/^https?:\/\//, "")` (line 99): one leading "http://" or "https://",
      in lower case, is removed; nothing else changes. */
  function StripProtocol(w: string): (r: string)
    ensures r == w || (|w| >= 7 && w[..7] == "http://" && r == w[7..])
              || (|w| >= 8 && w[..8] == "https://" && r == w[8..])
  {
    if |w| >= 8 && w[..8] == "https://" then w[8..]
    else if |w| >= 7 && w[..7] == "http://" then w[7..]
    else w
  }

  /** Exactly one protocol is removed, whatever follows it. */
  lemma StripsOneProtocol(rest: string)
    ensures StripProtocol("https://" + rest) == rest
    ensures StripProtocol("http://" + rest) == rest
  {
    assert ("https://" + rest)[..8] == "https://";
    assert ("http://" + rest)[..7] == "http://";
    var h := "http://" + rest;
    if |h| >= 8 {
      assert h[..8][4] == ':' && "https://"[4] == 's';
    }
  }

  /** A website that does not start with a protocol is shown as it is. */
  lemma NoProtocolUnchanged(w: string)
    requires !(|w| >= 7 && w[..7] == "http://") && !(|w| >= 8 && w[..8] == "https://")
    ensures StripProtocol(w) == w
  {
  }

  /** `name.split(" ")[0]` (line 161): the text before the first space, the whole name when
      there is none, and "" when the name starts with a space. */
  function FirstName(name: string): (r: string)
    ensures r <= name
    ensures forall k :: 0 <= k < |r| ==> r[k] != ' '
    ensures |r| < |name| ==> name[|r|] == ' '
  {
    if name == [] || name[0] == ' ' then [] else [name[0]] + FirstName(name[1..])
  }

  /** The first name is determined by those three facts: any prefix without a space that ends
      the name or stops at a space is it. */
  lemma {:induction false} FirstNameUnique(name: string, f: string)
    requires f <= name
    requires forall k :: 0 <= k < |f| ==> f[k] != ' '
    requires |f| < |name| ==> name[|f|] == ' '
    ensures FirstName(name) == f
  {
    if f != [] {
      assert name[0] == f[0];
      assert f[1..] <= name[1..];
      FirstNameUnique(name[1..], f[1..]);
    }
  }

  /** "Jane Doe" is "Jane"; a name with no space is its own first name. */
  lemma FirstNameOfFullName(first: string, rest: string)
    requires forall k :: 0 <= k < |first| ==> first[k] != ' '
    ensures FirstName(first + " " + rest) == first
    ensures FirstName(first) == first
  {
    FirstNameUnique(first + " " + rest, first);
    FirstNameUnique(first, first);
  }

  const Unavailable := "Partner data not available. Please regenerate."

  /** What the slide shows. */
  datatype View =
    | Fallback(message: string)
    | Card(eyebrow: string, partnerName: string, website: string, business: string, audience: string,
           listSize: string, whatTheyDo: string, problemSolved: string, whyGoodFit: string)

  /** The slide (lines 44-193): without a partner only the fallback message (lines 48-54);
      otherwise the partner's card under the client's name. */
  function Render(data: Option<PartnerData>): (v: View)
    ensures (data.None? || data.value.selectedPartner.None?) <==> v.Fallback?
    ensures v.Fallback? ==> v.message == Unavailable
    ensures v.Card? ==>
              var p := data.value.selectedPartner.value;
              v.eyebrow == ClientName(data) + "'s First Partner" && v.partnerName == p.name
              && v.website == StripProtocol(p.website) && v.business == p.business
              && v.audience == p.audience && v.listSize == p.listSize
              && v.whatTheyDo == "What " + FirstName(p.name) + " Does"
              && v.problemSolved == p.problemSolved && v.whyGoodFit == p.whyGoodFit
  {
    var clientName := ClientName(data);
    match data
    case None => Fallback(Unavailable)
    case Some(d) =>
      match d.selectedPartner
      case None => Fallback(Unavailable)
      case Some(p) =>
        Card(clientName + "'s First Partner", p.name, StripProtocol(p.website), p.business, p.audience,
             p.listSize, "What " + FirstName(p.name) + " Does", p.problemSolved, p.whyGoodFit)
  }

  /** Without a partner the slide is the same whatever the client's name. */
  lemma FallbackIgnoresClient(a: Option<string>, b: Option<string>)
    ensures Render(Some(PartnerData(a, None))) == Render(Some(PartnerData(b, None))) == Render(None)
  {
  }
}
