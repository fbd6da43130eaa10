/** The generated case-study slide (src/components/dynamic/DynamicSlide6.tsx): every text it
    shows is the case study's own field when that is a non-empty string, and a fixed default
    otherwise; the clients figure is followed by "Client" or "Clients". */
module CaseStudySlide {
  import opened Options
  import opened JsText

  /** `data.caseStudy`; a missing field is `None`. `partnerPlatform`, `audienceSize` and `result`
      are part of the data but the slide shows none of them. */
  datatype CaseStudy = CaseStudy(
    partnerName: Option<string>, partnerRole: Option<string>, partnerPlatform: Option<string>,
    audienceSize: Option<string>, beforeDesc: Option<string>, afterDesc: Option<string>,
    leadsGenerated: Option<string>, clientsLanded: Option<string>, result: Option<string>,
    quote: Option<string>)

  /** `{}`: the case study with no fields at all. */
  const EmptyCaseStudy := CaseStudy(None, None, None, None, None, None, None, None, None, None)

  const DefaultPartnerName := "Partner Name"
  const DefaultPartnerRole := "BOPA Partner"
  const DefaultBefore := "Running ads and content alone with unpredictable lead flow"
  const DefaultAfter := "Hundreds of leads and a new high-ticket client from a single partnership"
  const DefaultLeads := "327"
  const DefaultClients := "1"
  const DefaultQuote := "One partnership changed everything."

  /** The texts the slide shows. */
  datatype View = View(partnerName: string, partnerRole: string, beforeDesc: string, afterDesc: string,
                       leads: string, clients: string, quote: string)

  /** `data.caseStudy || {}` (line 25): an object is truthy, so only a missing case study is
      replaced by the empty one. */
  function CaseStudyOf(cs: Option<CaseStudy>): (r: CaseStudy)
    ensures cs.None? ==> r == EmptyCaseStudy
    ensures cs.Some? ==> r == cs.value
  {
    cs.GetOr(EmptyCaseStudy)
  }

  /** Lines 26-32: each text is `cs.field || default`. */
  function Shown(data: Option<CaseStudy>): (v: View)
    ensures var cs := CaseStudyOf(data);
            v.partnerName == OrElse(cs.partnerName, DefaultPartnerName)
            && v.partnerRole == OrElse(cs.partnerRole, DefaultPartnerRole)
            && v.beforeDesc == OrElse(cs.beforeDesc, DefaultBefore)
            && v.afterDesc == OrElse(cs.afterDesc, DefaultAfter)
            && v.leads == OrElse(cs.leadsGenerated, DefaultLeads)
            && v.clients == OrElse(cs.clientsLanded, DefaultClients)
            && v.quote == OrElse(cs.quote, DefaultQuote)
  {
    var cs := CaseStudyOf(data);
    View(OrElse(cs.partnerName, DefaultPartnerName), OrElse(cs.partnerRole, DefaultPartnerRole),
         OrElse(cs.beforeDesc, DefaultBefore), OrElse(cs.afterDesc, DefaultAfter),
         OrElse(cs.leadsGenerated, DefaultLeads), OrElse(cs.clientsLanded, DefaultClients),
         OrElse(cs.quote, DefaultQuote))
  }

  /** Every text the slide shows is non-empty, whatever the data. */
  lemma NothingBlank(data: Option<CaseStudy>)
    ensures var v := Shown(data);
            v.partnerName != "" && v.partnerRole != "" && v.beforeDesc != "" && v.afterDesc != ""
            && v.leads != "" && v.clients != "" && v.quote != ""
  {
  }

  /** Without a case study the slide shows the defaults, "327" leads and "1 Client" among them. */
  lemma MissingCaseStudy()
    ensures Shown(None) == View(DefaultPartnerName, DefaultPartnerRole, DefaultBefore, DefaultAfter,
                                DefaultLeads, DefaultClients, DefaultQuote)
    ensures ClientsText(Shown(None).clients) == "1 Client"
  {
  }

  /** A case study whose shown fields are all non-empty is shown verbatim. */
  lemma CompleteCaseStudy(cs: CaseStudy, v: View)
    requires cs.partnerName == Some(v.partnerName) && cs.partnerRole == Some(v.partnerRole)
    requires cs.beforeDesc == Some(v.beforeDesc) && cs.afterDesc == Some(v.afterDesc)
    requires cs.leadsGenerated == Some(v.leads) && cs.clientsLanded == Some(v.clients) && cs.quote == Some(v.quote)
    requires v.partnerName != "" && v.partnerRole != "" && v.beforeDesc != "" && v.afterDesc != ""
    requires v.leads != "" && v.clients != "" && v.quote != ""
    ensures Shown(Some(cs)) == v
  {
  }

  /** The case study that holds exactly what a view shows. */
  function AsCaseStudy(v: View): (cs: CaseStudy)
    ensures cs.partnerName == Some(v.partnerName) && cs.quote == Some(v.quote)
  {
    CaseStudy(Some(v.partnerName), Some(v.partnerRole), None, None, Some(v.beforeDesc), Some(v.afterDesc),
              Some(v.leads), Some(v.clients), None, Some(v.quote))
  }

  /** Filling in the defaults is idempotent: handing the slide back what it showed shows the
      same again. */
  lemma ShownIsStable(data: Option<CaseStudy>)
    ensures Shown(Some(AsCaseStudy(Shown(data)))) == Shown(data)
  {
    NothingBlank(data);
    CompleteCaseStudy(AsCaseStudy(Shown(data)), Shown(data));
  }

  /** The clients figure with its noun (line 123). */
  function ClientsText(clients: string): (r: string)
    ensures r == clients + " Client" || r == clients + " Clients"
  {
    clients + " Client" + (if clients != "1" then "s" else "")
  }

  /** The noun is singular exactly when the figure is the text "1"; "01" or "1.0" count as
      several clients. */
  lemma SingularOnlyForOne(clients: string)
    ensures ClientsText(clients) == clients + " Client" <==> clients == "1"
  {
    if clients != "1" {
      var r := ClientsText(clients);
      assert |r| == |clients + " Client"| + 1;
    }
  }

  const HeadlineLead := "Case Study: How We Borrowed "

  /** The headline (lines 70-71): the shown partner name follows the fixed lead-in. */
  function Headline(v: View): (r: string)
    ensures |r| > |HeadlineLead| + |v.partnerName|
    ensures r[..|HeadlineLead|] == HeadlineLead
    ensures r[|HeadlineLead|..|HeadlineLead| + |v.partnerName|] == v.partnerName
  {
    HeadlineLead + v.partnerName + "'s Audience and Landed a $10,000 Client"
  }
}
