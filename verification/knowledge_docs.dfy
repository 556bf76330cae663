/** The knowledge-base bundle: twelve fixed documents, each turned into a
    one-page PDF by a fresh `SimplePDF` and stored under its file name in
    one `SimpleZip` archive. */
module KnowledgeDocs {
  import opened Common
  import opened PdfText
  import opened PdfFormat
  import opened ZipFormat
  import opened SimplePdfWriter
  import opened SimpleZipWriter

  /** A document definition; the contract id and the subtitle are
      optional. */
  datatype DocDef = DocDef(
    filename: string,
    title: string,
    contractId: Option<string>,
    subtitle: Option<string>,
    content: string)

  /** JavaScript truthiness of an optional string: present and not
      empty. */
  predicate Truthy(o: Option<string>)
  {
    o.Some? && o.value != []
  }

  /** The body text of a document: the content, with the contract line put
      in front of it when there is a contract id, and then the subtitle and
      a blank line put in front of that when there is a subtitle. */
  function FullContent(doc: DocDef): string
  {
    var withContract :=
      if Truthy(doc.contractId) then "CONTRACT ID: " + doc.contractId.value + "\n" + doc.content
      else doc.content;
    if Truthy(doc.subtitle) then doc.subtitle.value + "\n\n" + withContract else withContract
  }

  /** The subtitle lines of the body, or nothing. */
  function SubtitleLines(doc: DocDef): string
  {
    if Truthy(doc.subtitle) then doc.subtitle.value + "\n\n" else []
  }

  /** The contract line of the body, or nothing. */
  function ContractLine(doc: DocDef): string
  {
    if Truthy(doc.contractId) then "CONTRACT ID: " + doc.contractId.value + "\n" else []
  }

  /** The body reads: subtitle, then contract line, then content. */
  lemma FullContentOrder(doc: DocDef)
    ensures FullContent(doc) == SubtitleLines(doc) + ContractLine(doc) + doc.content
  {
  }

  /** The bytes of a document's PDF. */
  function DocumentBytes(doc: DocDef): seq<byte>
  {
    Latin1(PdfString(doc.title, FullContent(doc)))
  }

  /** The archive entries of a list of documents: one per document, in
      order, named by its file name and holding its PDF. */
  function BundleEntries(docs: seq<DocDef>): (r: seq<Entry>)
    ensures |r| == |docs|
  {
    if docs == [] then []
    else BundleEntries(docs[..|docs| - 1]) + [Entry(docs[|docs| - 1].filename, DocumentBytes(docs[|docs| - 1]))]
  }

  /** Bundling one more document appends its entry. */
  lemma BundleStep(docs: seq<DocDef>, i: nat)
    requires i < |docs|
    ensures BundleEntries(docs[..i + 1]) == BundleEntries(docs[..i]) + [Entry(docs[i].filename, DocumentBytes(docs[i]))]
  {
    assert docs[..i + 1][..i] == docs[..i];
  }

  /** Entry i of the bundle is document i's file name and PDF. */
  lemma {:induction false} BundleEntryAt(docs: seq<DocDef>, i: nat)
    requires i < |docs|
    ensures BundleEntries(docs)[i] == Entry(docs[i].filename, DocumentBytes(docs[i]))
    decreases |docs|
  {
    if i < |docs| - 1 {
      BundleEntryAt(docs[..|docs| - 1], i);
    }
  }

  /** The body text of each document of the catalog. */
  datatype Bodies = Bodies(
    msaGlobalRetailVip: string,
    sopHealthPlusPharma: string,
    inventoryAllocationPolicy: string,
    forceMajeureStandardTerms: string,
    sopSecureTransportHighValue: string,
    protocolInternationalCustomsRotterdam: string,
    policyReverseLogisticsReturns: string,
    workInstructionMemphisHub: string,
    supplierQualityManualQc: string,
    msaTechGiantCorpStrategic: string,
    hazMatHandlingGuidelines: string,
    slaMidWestChainsRetail: string)

  /** The catalog, in bundle order, around the given body texts. Longer
      literals are written as short pieces joined by `+`, which keeps the
      verifier's work on them small; each field is the same string. */
  function Catalog(bodies: Bodies): (r: seq<DocDef>)
    ensures |r| == 12
  {
    [
      DocDef("MSA_Global_" + "Retail_VIP.pdf",
        "MASTER SERVICE " + "AGREEMENT (MSA) " + "- GLOBAL RETAIL " + "INC",
        Some("DOC-VIP-900"),
        Some("TIER: VIP " + "PLATINUM"),
        bodies.msaGlobalRetailVip),
      DocDef("SOP_HealthPlus_" + "Pharma.pdf",
        "STANDARD " + "OPERATING " + "PROCEDURE (SOP) " + "- HEALTHPLUS " + "SYSTEMS",
        Some("DOC-SLA-001"),
        Some("CATEGORY: " + "PHARMACEUTICAL " + "/ COLD CHAIN"),
        bodies.sopHealthPlusPharma),
      DocDef("Inventory_" + "Allocation_" + "Policy.pdf",
        "GLOBAL " + "INVENTORY " + "ALLOCATION " + "POLICY (2025)",
        None,
        Some("APPLICABLE TO: " + "ALL FULFILLMENT " + "CENTERS"),
        bodies.inventoryAllocationPolicy),
      DocDef("Force_Majeure_" + "Standard_" + "Terms.pdf",
        "STANDARD TERMS " + "& CONDITIONS Of " + "CARRIAGE",
        Some("DOC-POL-105"),
        Some("APPLICABLE TO: " + "STANDARD TIER " + "CUSTOMERS"),
        bodies.forceMajeureStandardTerms),
      DocDef("SOP_Secure_" + "Transport_" + "HighValue.pdf",
        "SOP: SECURE " + "TRANSPORT OF " + "HIGH-VALUE " + "ELECTRONICS",
        None,
        Some("APPLICABLE TO: " + "TechGiant Corp, " + "Global Retail " + "Inc"),
        bodies.sopSecureTransportHighValue),
      DocDef("Protocol_" + "International_" + "Customs_" + "Rotterdam.pdf",
        "PORT PROTOCOL: " + "ROTTERDAM (NL) " + "IMPORT CLEARANCE",
        None,
        Some("APPLICABLE TO: " + "SEA FREIGHT " + "ARRIVALS"),
        bodies.protocolInternationalCustomsRotterdam),
      DocDef("Policy_Reverse_" + "Logistics_" + "Returns.pdf",
        "GLOBAL POLICY: " + "REVERSE " + "LOGISTICS & " + "DAMAGED GOODS",
        None,
        Some("SCOPE: " + "PACKAGING " + "COMPROMISE"),
        bodies.policyReverseLogisticsReturns),
      DocDef("Work_" + "Instruction_" + "Memphis_Hub.pdf",
        "WORK " + "INSTRUCTION: " + "MEMPHIS " + "SUPER-HUB " + "OPERATIONS",
        None,
        Some("SCENARIO: " + "CONGESTION / " + "CAPACITY " + "OVERFLOW"),
        bodies.workInstructionMemphisHub),
      DocDef("Supplier_" + "Quality_Manual_" + "QC.pdf",
        "SUPPLIER " + "QUALITY MANUAL " + "(SQM) - INBOUND " + "STANDARDS",
        None,
        Some("SECTION 5: " + "INBOUND QUALITY " + "CONTROL (IQC)"),
        bodies.supplierQualityManualQc),
      DocDef("MSA_TechGiant_" + "Corp_" + "Strategic.pdf",
        "STRATEGIC " + "PARTNERSHIP " + "AGREEMENT - " + "TECHGIANT CORP",
        Some("DOC-VIP-900 " + "(APPENDIX A)"),
        None,
        bodies.msaTechGiantCorpStrategic),
      DocDef("HazMat_Handling_" + "Guidelines.pdf",
        "HAZMAT HANDLING " + "GUIDELINES - " + "CLASS 6.2 " + "(INFECTIOUS)",
        None,
        Some("APPLICABLE TO: " + "Biological " + "Reference " + "Materials, " + "Vaccines"),
        bodies.hazMatHandlingGuidelines),
      DocDef("SLA_MidWest_" + "Chains_" + "Retail.pdf",
        "SERVICE " + "AGREEMENT - " + "MIDWEST CHAINS " + "LLC",
        Some("DOC-POL-105"),
        Some("TIER: STANDARD " + "GROUND"),
        bodies.slaMidWestChainsRetail)
    ]
  }

  /** The body texts of the knowledge base. */
  function CatalogBodies(): Bodies
  {
    Bodies(
      MsaGlobalRetailVipText(),
      SopHealthPlusPharmaText(),
      InventoryAllocationPolicyText(),
      ForceMajeureStandardTermsText(),
      SopSecureTransportHighValueText(),
      ProtocolInternationalCustomsRotterdamText(),
      PolicyReverseLogisticsReturnsText(),
      WorkInstructionMemphisHubText(),
      SupplierQualityManualQcText(),
      MsaTechGiantCorpStrategicText(),
      HazMatHandlingGuidelinesText(),
      SlaMidWestChainsRetailText())
  }

  /** The twelve documents of the knowledge base, in bundle order. */
  function Documents(): seq<DocDef>
  {
    Catalog(CatalogBodies())
  }

  /** The body text of MSA_Global_Retail_VIP.pdf. */
  function MsaGlobalRetailVipText(): string
  {
    "1. SERVICE LEVEL AGREEMENT (SLA)\n"
    + "Provider guarantees 98% on-time " + "delivery for all shipments.\n"
    + "For VIP Platinum tier, any delay " + "exceeding 24 hours requires immediate " + "remediation.\n"
    + "\n"
    + "2. PENALTY CLAUSES\n"
    + "Late delivery ( > 48 hours) will incur " + "a penalty of 5% of the total shipment " + "value.\n"
    + "This penalty is automatic and deducted " + "from the monthly invoice.\n"
    + "\n"
    + "3. EXPEDITED SHIPPING\n"
    + "In the event of a predicted delay, " + "Provider MUST upgrade shipping to 'Air " + "Expedite' at Provider's sole expense. " + "No prior approval is needed for costs " + "under $5,000.\n"
    + "\n"
    + "4. LOST SHIPMENTS\n"
    + "If a shipment is lost (no scan > 72h), " + "immediate full refund or reshipment is " + "required."
  }

  /** The body text of SOP_HealthPlus_Pharma.pdf. */
  function SopHealthPlusPharmaText(): string
  {
    "1. TEMPERATURE CONTROL\n"
    + "All shipments must be maintained " + "between 2\U{00B0}C and 8\U{00B0}C.\n"
    + "Any excursion above 8\U{00B0}C for more than 4 " + "hours renders the product " + "'Adulterated'.\n"
    + "\n"
    + "2. DAMAGED GOODS PROTOCOL\n"
    + "If a temperature excursion or physical " + "damage is detected:\n"
    + "   a) Isolate the shipment immediately.\n"
    + "   b) Do NOT attempt to deliver.\n"
    + "   c) Initiate immediate replacement " + "shipment (Reshipment) via Next Flight " + "Out.\n"
    + "\n"
    + "3. REPORTING\n"
    + "All deviations must be reported to the " + "Quality Assurance team within 4 hours."
  }

  /** The body text of Inventory_Allocation_Policy.pdf. */
  function InventoryAllocationPolicyText(): string
  {
    "1. STOCK SCARCITY PROTOCOL\n"
    + "In the event of inventory shortage " + "(Demand > Supply):\n"
    + "\n"
    + "   TIER 1 (VIP): Priority allocation. " + "100% fulfillment guaranteed. If local " + "stock is unavailable, transfer from " + "regional hubs at company expense.\n"
    + "\n"
    + "   TIER 2 (STANDARD): " + "First-Come-First-Served. Backorders " + "authorized with 14-day lead time.\n"
    + "\n"
    + "2. SAFETY STOCK\n"
    + "A safety stock buffer of 200 units is " + "reserved exclusively for VIP contract " + "fulfillment."
  }

  /** The body text of Force_Majeure_Standard_Terms.pdf. */
  function ForceMajeureStandardTermsText(): string
  {
    "1. FORCE MAJEURE\n"
    + "Carrier is NOT liable for delays caused " + "by Acts of God, including but not " + "limited to:\n"
    + "- Hurricanes, Floods, Earthquakes\n"
    + "- Severe Weather Events (Blizzards, Ice " + "Storms)\n"
    + "- Civil Unrest or War\n"
    + "\n"
    + "2. LIABILITY\n"
    + "In the event of a Force Majeure delay, " + "standard SLA guarantees are suspended. " + "Note refunds or credits will be issued " + "for weather-related delays."
  }

  /** The body text of SOP_Secure_Transport_HighValue.pdf. */
  function SopSecureTransportHighValueText(): string
  {
    "ITEMS: Gaming Consoles, Smart Watches\n"
    + "\n"
    + "1. SHOCK MONITORING\n"
    + "All shipments >$50k value must be " + "equipped with localized shock sensors " + "(50G threshold).\n"
    + "If a shock event >50G is recorded:\n"
    + "   a) Goods are deemed POTENTIALLY " + "COMPROMISED.\n"
    + "   b) Do not deliver to retail " + "partners.\n"
    + "   c) Reroute to Central Inspection " + "Facility (CIF) for diagnostic testing.\n"
    + "\n"
    + "2. SECURITY CAGES\n"
    + "High-value pallets must be stored in " + "locked security cages at all transit " + "hubs."
  }

  /** The body text of Protocol_International_Customs_Rotterdam.pdf. */
  function ProtocolInternationalCustomsRotterdamText(): string
  {
    "1. DOCUMENTATION FAILURE\n"
    + "If Customs Documentation (T1 Form) is " + "incomplete:\n"
    + "   - Shipment is placed in Bonded " + "Warehouse (Zone B).\n"
    + "   - Detention charges apply after 48 " + "hours (\U{20AC}500/day).\n"
    + "\n"
    + "2. MISSED CONNECTIONS\n"
    + "For VIP containers missing onward " + "rail/truck connections due to customs " + "hold:\n"
    + "   - Must be re-booked on 'Priority " + "Express' truck within 12 hours.\n"
    + "   - Rail transport is too slow for " + "recovery; use dedicated road transport."
  }

  /** The body text of Policy_Reverse_Logistics_Returns.pdf. */
  function PolicyReverseLogisticsReturnsText(): string
  {
    "1. INSPECTION THRESHOLD\n"
    + "If outer packaging shows visible damage " + "(>10% surface area or crushed corners):\n"
    + "   - DO NOT DELIVER to customer.\n"
    + "   - Driver must scan as " + "'Damaged/Refused'.\n"
    + "\n"
    + "2. DISPOSITION\n"
    + "   - Low Value (<$500): Field Destroy " + "(discard) and reship.\n"
    + "   - High Value (>$500): Return to " + "Vendor (RTV) for credit.\n"
    + "   - Hazmat/Pharma: Isolate and await " + "Safety Officer clearance."
  }

  /** The body text of Work_Instruction_Memphis_Hub.pdf. */
  function WorkInstructionMemphisHubText(): string
  {
    "1. REROUTING LOGIC\n"
    + "When sort capacity exceeds 95%:\n"
    + "   - Divert Standard Ground volumes to " + "Nashville or St. Louis hubs.\n"
    + "   - PRIORITIZE Air Express and VIP " + "volumes for Memphis sort.\n"
    + "\n"
    + "2. DELAY NOTIFICATION\n"
    + "   - Automated alerts must be sent to " + "customers if sort delay > 4 hours.\n"
    + "   - For VIP customers, proactive CSR " + "outreach is required."
  }

  /** The body text of Supplier_Quality_Manual_QC.pdf. */
  function SupplierQualityManualQcText(): string
  {
    "1. BATCH FAILURE\n"
    + "If a random sampling (AQL 2.5) fails " + "inspection:\n"
    + "   - The ENTIRE SKU batch is placed on " + "'Quality Hold' status.\n"
    + "   - No units can be allocated to " + "orders until 100% re-inspection is " + "complete.\n"
    + "\n"
    + "2. SHORTAGE IMPACT\n"
    + "   - If logic hold causes stockout, " + "trigger 'Inventory Shortage' protocol.\n"
    + "   - Notify Supply Planning immediately " + "to expedite replacement PO."
  }

  /** The body text of MSA_TechGiant_Corp_Strategic.pdf. */
  function MsaTechGiantCorpStrategicText(): string
  {
    "1. JOINT SUPPLY CHAIN VISIBILITY\n"
    + "   - Integrated data sharing for " + "real-time inventory tracking.\n"
    + "\n"
    + "2. PEAK SEASON PRIORITY\n"
    + "   - TechGiant freight receives 'Head " + "of Line' privileges during Q4.\n"
    + "   - Carrier commits to 110% capacity " + "allocation vs forecast.\n"
    + "\n"
    + "3. PENALTY EXEMPTION\n"
    + "   - Non-critical delays (<4h) do not " + "incur penalties if communicated " + "proactively."
  }

  /** The body text of HazMat_Handling_Guidelines.pdf. */
  function HazMatHandlingGuidelinesText(): string
  {
    "1. PACKAGING REQUIREMENTS\n"
    + "   - Triple packaging (UN certified) " + "required.\n"
    + "   - Dry Ice must be labeled with net " + "weight.\n"
    + "\n"
    + "2. SPILL / DAMAGE PROTOCOL\n"
    + "   - If package integrity is " + "compromised, EVACUATE area immediately.\n"
    + "   - Contact HAZMAT Response Team.\n"
    + "   - DO NOT ATTEMPT to repackage or " + "clean up without PPE."
  }

  /** The body text of SLA_MidWest_Chains_Retail.pdf. */
  function SlaMidWestChainsRetailText(): string
  {
    "1. TRANSIT TIMES\n"
    + "   - Standard delivery window is 3-5 " + "business days.\n"
    + "   - Weekend delivery is NOT included.\n"
    + "\n"
    + "2. CLAIMS\n"
    + "   - Claims for lost goods must be " + "filed within 30 days.\n"
    + "   - Maximum liability limited to $100 " + "per package unless insurance purchased."
  }

  /** No two documents of the catalog share a file name, whatever their
      body texts. */
  lemma DistinctFilenames(bodies: Bodies)
    ensures forall i, j :: 0 <= i < j < 12 ==> Catalog(bodies)[i].filename != Catalog(bodies)[j].filename
  {
    var docs := Catalog(bodies);
    forall i, j | 0 <= i < j < 12
      ensures docs[i].filename != docs[j].filename
    {
      assert |docs[i].filename| != |docs[j].filename| || docs[i].filename[0] != docs[j].filename[0];
    }
  }

  /** The entries of a bundle are named after its documents, in order. */
  lemma BundleNames(docs: seq<DocDef>)
    ensures forall i :: 0 <= i < |docs| ==> BundleEntries(docs)[i].name == docs[i].filename
  {
    forall i | 0 <= i < |docs|
      ensures BundleEntries(docs)[i].name == docs[i].filename
    {
      BundleEntryAt(docs, i);
    }
  }

  /** The archive of the catalog has no two entries of the same name. */
  lemma BundleNamesDistinct(bodies: Bodies)
    ensures forall i, j :: 0 <= i < j < |BundleEntries(Catalog(bodies))| ==>
      BundleEntries(Catalog(bodies))[i].name != BundleEntries(Catalog(bodies))[j].name
  {
    DistinctFilenames(bodies);
    BundleNames(Catalog(bodies));
  }

  /** One pass of the loop of `generateKnowledgeDocs`: a fresh `SimplePDF`
      renders the document's title and body. */
  method RenderDocument(doc: DocDef) returns (pdfData: array<byte>)
    ensures fresh(pdfData)
    ensures pdfData[..] == DocumentBytes(doc)
  {
    var pdfGenerator := new SimplePDF();

    var fullContent := doc.content;
    if Truthy(doc.contractId) {
      fullContent := "CONTRACT ID: " + doc.contractId.value + "\n" + fullContent;
    }
    if Truthy(doc.subtitle) {
      fullContent := doc.subtitle.value + "\n\n" + fullContent;
    }

    pdfData := pdfGenerator.CreatePDF(doc.title, fullContent);
  }

  /** The body of the loop of `generateKnowledgeDocs`: the document's PDF
      is added to the archive under its file name. */
  method AddDocument(zip: SimpleZip, doc: DocDef)
    modifies zip
    ensures zip.files == old(zip.files) + [Entry(doc.filename, DocumentBytes(doc))]
  {
    var pdfData := RenderDocument(doc);
    zip.AddFile(doc.filename, pdfData[..]);
  }

  /** `generateKnowledgeDocs`: every document is rendered and added to a
      new archive in catalog order, and the archive is generated. */
  method GenerateKnowledgeDocs() returns (zipData: array<byte>)
    ensures fresh(zipData)
    ensures zipData[..] == ArchiveImage(BundleEntries(Documents()))
  {
    zipData := BundleDocuments(Documents());
  }

  /** The loop of `generateKnowledgeDocs` over a catalog. */
  method BundleDocuments(docs: seq<DocDef>) returns (zipData: array<byte>)
    ensures fresh(zipData)
    ensures zipData[..] == ArchiveImage(BundleEntries(docs))
  {
    var zip := new SimpleZip();

    for i := 0 to |docs|
      invariant zip.files == BundleEntries(docs[..i])
    {
      AddDocument(zip, docs[i]);
      BundleStep(docs, i);
    }
    assert docs[..|docs|] == docs;

    zipData := zip.Generate();
  }
}
