/** The document catalog: the record type and the fixed list of documents the
    training-examples page filters (src/lib/data.ts). */
module Catalog {

  import opened Strings

  datatype DocType = Template | Example | Guide

  datatype FileType = Docx | Pdf | Xlsx | Doc

  /** The `fileType` string the source stores for each file type. */
  function FileTypeName(ft: FileType): string {
    match ft
    case Docx => "docx"
    case Pdf => "pdf"
    case Xlsx => "xlsx"
    case Doc => "doc"
  }

  /** One catalog record. The source's `icon` field is a presentation
      component and is not modelled. */
  datatype Document = Document(
    id: string,
    title: string,
    description: string,
    category: string,
    docType: DocType,
    fileType: FileType,
    lastUpdated: string,
    tags: seq<string>,
    path: string)

  /** Every path in this copy of the catalog lives under this directory. */
  const DocumentsDir := "/documents/"

  const SovAffidavit := Document(
    id := "sov-affidavit",
    title := "Schedule of Values (SOV) Affidavit",
    description := "Template for Appendix C forms with proper cost breakdown format (APCO, Gemini, Moon River line items).",
    category := "Financial",
    docType := Template,
    fileType := Docx,
    lastUpdated := "Dec 16, 2025",
    tags := ["sov", "affidavit", "pay-app", "finance"],
    path := DocumentsDir + "Schedule of Values (SOV) Affidavit_of_Subcontractor.docx")

  const AffidavitPdf := Document(
    id := "affidavit-pdf",
    title := "Affidavit of Subcontractor (PDF)",
    description := "Original PDF form for Affidavit of Subcontractor (Appendix C).",
    category := "Financial",
    docType := Template,
    fileType := Pdf,
    lastUpdated := "Dec 16, 2025",
    tags := ["affidavit", "form", "legal"],
    path := DocumentsDir + "AffidavitofSbucontractorAppC_CASTLE_Mo.pdf")

  const BidDocCastle := Document(
    id := "bid-doc-castle",
    title := "Bid Document - CASTLE",
    description := "Bid document for O'Fallon Center for Advanced Skills in Law Enforcement Training Center.",
    category := "Estimating",
    docType := Example,
    fileType := Docx,
    lastUpdated := "Dec 18, 2025",
    tags := ["bid", "proposal", "example"],
    path := DocumentsDir + "Bid-OfallonCenterforAdvancedSkillsinLawEnforcementTrainingCenter.docx")

  const ContractCastle := Document(
    id := "contract-castle",
    title := "Contract - CASTLE (Signed)",
    description := "Signed contract for O'Fallon CASTLE project with DocuSign.",
    category := "Project Management",
    docType := Example,
    fileType := Pdf,
    lastUpdated := "Dec 18, 2025",
    tags := ["contract", "signed", "legal"],
    path := DocumentsDir + "Complete_with_DocuSign_25010110126_CASTLE_Mo.pdf")

  const ChangeOrderProposal := Document(
    id := "change-order-proposal",
    title := "Change Order Proposal Template",
    description := "Standard template for submitting change order proposals to General Contractors.",
    category := "Project Management",
    docType := Template,
    fileType := Pdf,
    lastUpdated := "Dec 15, 2025",
    tags := ["change-order", "proposal", "contract"],
    path := DocumentsDir + "Template ChangeOrder_Proposal.pdf")

  const GeminiPricing := Document(
    id := "gemini-pricing",
    title := "Gemini FY25 Pricing Guide",
    description := "Complete pricing guide for Gemini products (plaques, letters) for estimating.",
    category := "Estimating",
    docType := Guide,
    fileType := Xlsx,
    lastUpdated := "Dec 13, 2025",
    tags := ["pricing", "gemini", "estimating", "catalog"],
    path := DocumentsDir + "Gemini FY25_US_COMPLETE_PRICING_GUIDE_R1.xlsx")

  const CloseoutMaintenance := Document(
    id := "closeout-maintenance",
    title := "Closeout: Maintenance & Warranty",
    description := "Template for project closeout documentation including maintenance instructions and warranty terms.",
    category := "Closeout",
    docType := Template,
    fileType := Docx,
    lastUpdated := "Dec 10, 2025",
    tags := ["closeout", "warranty", "maintenance", "handover"],
    path := DocumentsDir + "Closeout Document_ Maintenance & Warranty Data.docx")

  const SignageTakeoff := Document(
    id := "signage-takeoff",
    title := "Signage Takeoff Example",
    description := "Example of a completed signage takeoff for reference (Creek County Sheriff EOC).",
    category := "Estimating",
    docType := Example,
    fileType := Docx,
    lastUpdated := "Dec 9, 2025",
    tags := ["takeoff", "estimating", "example"],
    path := DocumentsDir + "Creek_County_Sheriff_EOC_Phase_II_-_Signage_Takeoff (1).docx")

  const WarrantyInfo := Document(
    id := "warranty-info",
    title := "Warranty & Maintenance Info",
    description := "Warranty documentation example from Francis Howell High School project.",
    category := "Closeout",
    docType := Example,
    fileType := Docx,
    lastUpdated := "Dec 1, 2025",
    tags := ["warranty", "maintenance", "example"],
    path := DocumentsDir + "FHHS WARRANTY AND MAINTENANCE INFORMATION.txt")

  const LienWaiverUnconditional := Document(
    id := "lien-waiver-unconditional",
    title := "Unconditional Sub Lien Waiver",
    description := "Standard form for unconditional lien waivers required with pay applications.",
    category := "Financial",
    docType := Template,
    fileType := Docx,
    lastUpdated := "Nov 26, 2025",
    tags := ["lien-waiver", "legal", "pay-app"],
    path := DocumentsDir + "Unconditional Sub lien waiver form.doc")

  const ChangeOrderExample := Document(
    id := "change-order-example",
    title := "Change Order Example (LCS)",
    description := "Real-world example of a completed change order for reference.",
    category := "Project Management",
    docType := Example,
    fileType := Pdf,
    lastUpdated := "Nov 25, 2025",
    tags := ["change-order", "example", "contract"],
    path := DocumentsDir + "LCS Change Order CO 001.PDF")

  const CoiSample := Document(
    id := "coi-sample",
    title := "Sample COI for Moon River",
    description := "Example Certificate of Insurance showing standard coverage limits.",
    category := "Insurance",
    docType := Example,
    fileType := Pdf,
    lastUpdated := "Nov 21, 2025",
    tags := ["insurance", "coi", "legal"],
    path := DocumentsDir + "Sample COI for Moon River.pdf")

  const LienWaiverCombined := Document(
    id := "lien-waiver-combined",
    title := "Combined Lien Waiver Sample",
    description := "Comprehensive example of lien waivers including both Moon River and manufacturer waivers.",
    category := "Financial",
    docType := Example,
    fileType := Pdf,
    lastUpdated := "Nov 21, 2025",
    tags := ["lien-waiver", "legal", "example"],
    path := DocumentsDir + "Sample Lien Waiver Moon River & Manufacturers.pdf")

  const CoiRequirements := Document(
    id := "coi-requirements",
    title := "COI Requirements Template",
    description := "Template for extracting and documenting COI requirements from contracts.",
    category := "Insurance",
    docType := Template,
    fileType := Docx,
    lastUpdated := "Nov 15, 2025",
    tags := ["insurance", "coi", "checklist"],
    path := DocumentsDir + "COI Requirements Extracted from Takeoff Docs_Contract.txt")

  const SovExample := Document(
    id := "sov-example",
    title := "Schedule of Values Example",
    description := "Example Schedule of Values for WIU Sallee Hall project showing job numbering format.",
    category := "Financial",
    docType := Example,
    fileType := Docx,
    lastUpdated := "Nov 15, 2025",
    tags := ["sov", "finance", "example"],
    path := DocumentsDir + "SCHEDULE_OF_VALUES_25-007-WIU.docx")

  const TrelloChecklist := Document(
    id := "trello-checklist",
    title := "Trello Project Setup Checklist",
    description := "Standardized checklist for setting up new projects in Trello.",
    category := "Project Management",
    docType := Template,
    fileType := Docx,
    lastUpdated := "Nov 15, 2025",
    tags := ["trello", "checklist", "setup", "pm"],
    path := DocumentsDir + "Trello_Project_Setup_Checklist.docx")

  const BidDocTemplate := Document(
    id := "bid-doc-template",
    title := "Latest Bid Document Template",
    description := "Current standard bid document template for Moon River Sign Company.",
    category := "Estimating",
    docType := Template,
    fileType := Docx,
    lastUpdated := "Nov 14, 2025",
    tags := ["bid", "proposal", "template"],
    path := DocumentsDir + "Latest 2027 Bid Doc.docx")

  const RfpResponse := Document(
    id := "rfp-response",
    title := "RFP Response Example",
    description := "Example of a Request for Proposal response (Ponca City Music).",
    category := "Estimating",
    docType := Example,
    fileType := Docx,
    lastUpdated := "Oct 30, 2025",
    tags := ["rfp", "proposal", "example"],
    path := DocumentsDir + "RFP 09 Ponca City Music.doc")

  /** The catalog, in the source's order. */
  const Documents: seq<Document> := [
    SovAffidavit, AffidavitPdf, BidDocCastle,
    ContractCastle, ChangeOrderProposal, GeminiPricing,
    CloseoutMaintenance, SignageTakeoff, WarrantyInfo,
    LienWaiverUnconditional, ChangeOrderExample, CoiSample,
    LienWaiverCombined, CoiRequirements, SovExample,
    TrelloChecklist, BidDocTemplate, RfpResponse
  ]

  /** The category filter buttons, in display order; "All" selects everything. */
  const Categories: seq<string> := ["All", "Financial", "Project Management", "Estimating", "Closeout", "Insurance"]

  // ---- Counting by document type ----------------------------------------

  /** How many documents from index `k` on have type `t`. */
  function CountFrom(docs: seq<Document>, t: DocType, k: nat): (n: nat)
    ensures n <= |docs| - k || (k >= |docs| && n == 0)
    decreases |docs| - k
  {
    if k >= |docs| then 0
    else (if docs[k].docType == t then 1 else 0) + CountFrom(docs, t, k + 1)
  }

  /** The number of documents of type `t` (the length of `docs.filter(d => d.type === t)`). */
  function CountOfType(docs: seq<Document>, t: DocType): (n: nat)
    ensures n <= |docs|
  {
    CountFrom(docs, t, 0)
  }

  /** Every document has exactly one of the three types, so the three counts
      partition the list. */
  lemma {:induction false} TypeCountsPartition(docs: seq<Document>, k: nat)
    requires k <= |docs|
    ensures CountFrom(docs, Template, k) + CountFrom(docs, Example, k) + CountFrom(docs, Guide, k)
            == |docs| - k
    decreases |docs| - k
  {
    if k < |docs| {
      TypeCountsPartition(docs, k + 1);
    }
  }

  datatype TypeCounts = TypeCounts(templates: nat, examples: nat, guides: nat)

  /** All three type counts from index `k` on, computed together. */
  function Tally(docs: seq<Document>, k: nat): (c: TypeCounts)
    ensures c == TypeCounts(CountFrom(docs, Template, k), CountFrom(docs, Example, k), CountFrom(docs, Guide, k))
    decreases |docs| - k
  {
    if k >= |docs| then TypeCounts(0, 0, 0)
    else
      var c := Tally(docs, k + 1);
      match docs[k].docType
      case Template => c.(templates := c.templates + 1)
      case Example => c.(examples := c.examples + 1)
      case Guide => c.(guides := c.guides + 1)
  }

  // ---- Invariants of the catalog constant ----------------------------------

  /** Document ids are pairwise distinct (they are the list keys of the page). */
  lemma IdsUnique()
    ensures forall i, j :: 0 <= i < j < |Documents| ==> Documents[i].id != Documents[j].id
  {
  }

  /** Every document's category is one of the filter buttons, and never "All". */
  lemma CategoriesValid()
    ensures forall i :: 0 <= i < |Documents| ==>
      Documents[i].category in Categories && Documents[i].category != "All"
  {
  }

  /** The category list starts with "All" and has no duplicates. */
  lemma CategoriesShape()
    ensures Categories[0] == "All"
    ensures forall i, j :: 0 <= i < j < |Categories| ==> Categories[i] != Categories[j]
  {
  }

  /** Every path in this copy lies under the documents directory, so none of
      them is the "#" placeholder. */
  lemma PathsUnderDocumentsDir()
    ensures forall i :: 0 <= i < |Documents| ==>
      IsPrefix(DocumentsDir, Documents[i].path) && Documents[i].path != "#" && Documents[i].path != ""
  {
    forall i | 0 <= i < |Documents|
      ensures IsPrefix(DocumentsDir, Documents[i].path)
    {
      var p := Documents[i].path;
      assert p[..|DocumentsDir|] == DocumentsDir;
    }
  }

  /** The file type is declared independently of the path: warranty-info is a
      `docx` whose path ends in `.txt`. */
  lemma FileTypeIndependentOfPath()
    ensures WarrantyInfo.fileType == Docx && IsSuffix(".txt", WarrantyInfo.path)
  {
  }

  /** The catalog holds 18 documents: 8 templates, 9 examples and 1 guide. */
  lemma CatalogCounts()
    ensures |Documents| == 18
    ensures CountOfType(Documents, Template) == 8
    ensures CountOfType(Documents, Example) == 9
    ensures CountOfType(Documents, Guide) == 1
  {
    assert Tally(Documents, 17) == TypeCounts(0, 1, 0);
    assert Tally(Documents, 16) == TypeCounts(1, 1, 0);
    assert Tally(Documents, 15) == TypeCounts(2, 1, 0);
    assert Tally(Documents, 14) == TypeCounts(2, 2, 0);
    assert Tally(Documents, 13) == TypeCounts(3, 2, 0);
    assert Tally(Documents, 12) == TypeCounts(3, 3, 0);
    assert Tally(Documents, 11) == TypeCounts(3, 4, 0);
    assert Tally(Documents, 10) == TypeCounts(3, 5, 0);
    assert Tally(Documents, 9) == TypeCounts(4, 5, 0);
    assert Tally(Documents, 8) == TypeCounts(4, 6, 0);
    assert Tally(Documents, 7) == TypeCounts(4, 7, 0);
    assert Tally(Documents, 6) == TypeCounts(5, 7, 0);
    assert Tally(Documents, 5) == TypeCounts(5, 7, 1);
    assert Tally(Documents, 4) == TypeCounts(6, 7, 1);
    assert Tally(Documents, 3) == TypeCounts(6, 8, 1);
    assert Tally(Documents, 2) == TypeCounts(6, 9, 1);
    assert Tally(Documents, 1) == TypeCounts(7, 9, 1);
    assert Tally(Documents, 0) == TypeCounts(8, 9, 1);
  }
}
