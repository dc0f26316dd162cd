/**
 * The records and enumerations the agents exchange (longevity_map/models).
 * Each enumeration is a datatype whose `Value()` is the string the Python
 * `str`-Enum stores; `CategoryFromValue` is the Enum's lookup by value
 * (`ProblemCategory("...")`), which raises `ValueError` for unknown strings.
 * Database columns that may be NULL are `Option`s.
 */
module ProblemModel {
  import opened Wrappers

  /** The nine hallmarks of aging plus `other`, in declaration order. */
  datatype ProblemCategory =
    | GenomicInstability
    | TelomereAttention
    | EpigeneticAlterations
    | LossOfProteostasis
    | DeregulatedNutrientSensing
    | MitochondrialDysfunction
    | CellularSenescence
    | StemCellExhaustion
    | AlteredIntercellularCommunication
    | Other
  {
    function Value(): string
    {
      match this
      case GenomicInstability => "genomic_instability"
      // the member is spelled TELOMERE_ATTENTION but stores "telomere_attrition"
      case TelomereAttention => "telomere_attrition"
      case EpigeneticAlterations => "epigenetic_alterations"
      case LossOfProteostasis => "loss_of_proteostasis"
      case DeregulatedNutrientSensing => "deregulated_nutrient_sensing"
      case MitochondrialDysfunction => "mitochondrial_dysfunction"
      case CellularSenescence => "cellular_senescence"
      case StemCellExhaustion => "stem_cell_exhaustion"
      case AlteredIntercellularCommunication => "altered_intercellular_communication"
      case Other => "other"
    }
  }

  /** `ProblemCategory(s)`: `None` where Python raises `ValueError`. */
  function CategoryFromValue(s: string): (r: Option<ProblemCategory>)
    ensures r.Some? ==> r.value.Value() == s
  {
    if s == "genomic_instability" then Some(GenomicInstability)
    else if s == "telomere_attrition" then Some(TelomereAttention)
    else if s == "epigenetic_alterations" then Some(EpigeneticAlterations)
    else if s == "loss_of_proteostasis" then Some(LossOfProteostasis)
    else if s == "deregulated_nutrient_sensing" then Some(DeregulatedNutrientSensing)
    else if s == "mitochondrial_dysfunction" then Some(MitochondrialDysfunction)
    else if s == "cellular_senescence" then Some(CellularSenescence)
    else if s == "stem_cell_exhaustion" then Some(StemCellExhaustion)
    else if s == "altered_intercellular_communication" then Some(AlteredIntercellularCommunication)
    else if s == "other" then Some(Other)
    else None
  }

  /** Lookup by value inverts `Value()`: every category is found again from its stored string. */
  lemma CategoryValueRoundTrip(c: ProblemCategory)
    ensures CategoryFromValue(c.Value()) == Some(c)
  {
    match c
    case GenomicInstability => assert CategoryFromValue("genomic_instability") == Some(c);
    case TelomereAttention => assert CategoryFromValue("telomere_attrition") == Some(c);
    case EpigeneticAlterations => assert CategoryFromValue("epigenetic_alterations") == Some(c);
    case LossOfProteostasis => assert CategoryFromValue("loss_of_proteostasis") == Some(c);
    case DeregulatedNutrientSensing => assert CategoryFromValue("deregulated_nutrient_sensing") == Some(c);
    case MitochondrialDysfunction => assert CategoryFromValue("mitochondrial_dysfunction") == Some(c);
    case CellularSenescence => assert CategoryFromValue("cellular_senescence") == Some(c);
    case StemCellExhaustion => assert CategoryFromValue("stem_cell_exhaustion") == Some(c);
    case AlteredIntercellularCommunication => assert CategoryFromValue("altered_intercellular_communication") == Some(c);
    case Other => assert CategoryFromValue("other") == Some(c);
  }

  /** A problem as the parser creates it (`id` and `source_url` are unset until persisted). */
  datatype Problem = Problem(
    id: Option<int>,
    title: string,
    description: string,
    category: ProblemCategory,
    source: Option<string>,
    sourceId: Option<string>,
    sourceUrl: Option<string>)
}

module CapabilityModel {
  import opened Wrappers
  import Text

  datatype CapabilityType =
    | MeasurementTool
    | ModelSystem
    | Dataset
    | ComputationalMethod
    | Infrastructure
    | Software
    | Hardware
    | Protocol
    | Other
  {
    function Value(): string
    {
      match this
      case MeasurementTool => "measurement_tool"
      case ModelSystem => "model_system"
      case Dataset => "dataset"
      case ComputationalMethod => "computational_method"
      case Infrastructure => "infrastructure"
      case Software => "software"
      case Hardware => "hardware"
      case Protocol => "protocol"
      case Other => "other"
    }
  }

  /** The eight named types, in declaration order. */
  const NamedTypes: seq<CapabilityType> :=
    [MeasurementTool, ModelSystem, Dataset, ComputationalMethod, Infrastructure, Software, Hardware, Protocol]

  /** The Enum's lookup by value, scanning the named types from position `i`; no match is `OTHER`. */
  function TypeOfValueFrom(v: string, i: nat): CapabilityType
    decreases |NamedTypes| - i
  {
    if i >= |NamedTypes| then Other
    else if v == NamedTypes[i].Value() then NamedTypes[i]
    else TypeOfValueFrom(v, i + 1)
  }

  /** The eight named types by stored value; anything else is `OTHER`. */
  function TypeOfValue(v: string): CapabilityType
  {
    TypeOfValueFrom(v, 0)
  }

  /** The scan finds a named type whose value is `v`, or none is left to find. */
  lemma {:induction false} TypeOfValueFromSpec(v: string, i: nat)
    ensures TypeOfValueFrom(v, i) == Other ==> forall j :: i <= j < |NamedTypes| ==> v != NamedTypes[j].Value()
    ensures TypeOfValueFrom(v, i) != Other ==> TypeOfValueFrom(v, i).Value() == v
    decreases |NamedTypes| - i
  {
    if i < |NamedTypes| && v != NamedTypes[i].Value() {
      TypeOfValueFromSpec(v, i + 1);
    }
  }

  /**
   * The extractor's coercion of the LLM's `type` string: lower-cased, then
   * looked up among the eight named types, anything else being `OTHER`.
   */
  function TypeFromLlm(s: string): CapabilityType
  {
    TypeOfValue(Text.Lower(s))
  }

  /** The stored values are already lower case. */
  lemma ValueIsLower(t: CapabilityType)
    ensures Text.Lower(t.Value()) == t.Value()
  {
    match t
    case MeasurementTool => Text.LowerNoCapitals("measurement_tool");
    case ModelSystem => Text.LowerNoCapitals("model_system");
    case Dataset => Text.LowerNoCapitals("dataset");
    case ComputationalMethod => Text.LowerNoCapitals("computational_method");
    case Infrastructure => Text.LowerNoCapitals("infrastructure");
    case Software => Text.LowerNoCapitals("software");
    case Hardware => Text.LowerNoCapitals("hardware");
    case Protocol => Text.LowerNoCapitals("protocol");
    case Other => Text.LowerNoCapitals("other");
  }

  /** Looking a stored value up gives its type back. */
  lemma TypeOfValueRoundTrip(t: CapabilityType)
    ensures TypeOfValue(t.Value()) == t
  {
    match t
    case MeasurementTool => assert TypeOfValue("measurement_tool") == t;
    case ModelSystem => assert TypeOfValue("model_system") == t;
    case Dataset => assert TypeOfValue("dataset") == t;
    case ComputationalMethod => assert TypeOfValue("computational_method") == t;
    case Infrastructure => assert TypeOfValue("infrastructure") == t;
    case Software => assert TypeOfValue("software") == t;
    case Hardware => assert TypeOfValue("hardware") == t;
    case Protocol => assert TypeOfValue("protocol") == t;
    case Other => assert TypeOfValue("other") == t;
  }

  /** The stored values are already lower case, so the coercion gives every type back. */
  lemma TypeFromLlmRoundTrip(t: CapabilityType)
    ensures TypeFromLlm(t.Value()) == t
  {
    ValueIsLower(t);
    TypeOfValueRoundTrip(t);
  }

  /**
   * The coercion yields `OTHER` exactly for strings whose lower-case form is
   * not one of the eight named types' values, and otherwise the type whose
   * value that lower-case form is.
   */
  lemma TypeFromLlmCharacterized(s: string)
    ensures TypeFromLlm(s) == Other
        <==> forall t: CapabilityType :: t != Other ==> Text.Lower(s) != t.Value()
    ensures TypeFromLlm(s) != Other ==> TypeFromLlm(s).Value() == Text.Lower(s)
  {
    var l := Text.Lower(s);
    TypeOfValueFromSpec(l, 0);
    if TypeOfValue(l) == Other {
      forall t: CapabilityType | t != Other
        ensures l != t.Value()
      {
        match t
        case MeasurementTool => assert NamedTypes[0] == t;
        case ModelSystem => assert NamedTypes[1] == t;
        case Dataset => assert NamedTypes[2] == t;
        case ComputationalMethod => assert NamedTypes[3] == t;
        case Infrastructure => assert NamedTypes[4] == t;
        case Software => assert NamedTypes[5] == t;
        case Hardware => assert NamedTypes[6] == t;
        case Protocol => assert NamedTypes[7] == t;
      }
    }
  }

  /**
   * A capability; `estimatedCost`/`estimatedTime`/`complexity` are NULL until
   * estimated. Time is a real: the estimator scales months by 1.3.
   */
  datatype Capability = Capability(
    id: Option<int>,
    name: string,
    description: string,
    ctype: CapabilityType,
    estimatedCost: Option<real>,
    estimatedTime: Option<real>,
    complexity: Option<real>)
}

module ResourceModel {
  import opened Wrappers

  datatype ResourceType =
    | CoreFacility
    | Dataset
    | Cro
    | Software
    | Hardware
    | MouseModel
    | CellLine
    | Protocol
    | Database
    | Infrastructure
    | Other
  {
    function Value(): string
    {
      match this
      case CoreFacility => "core_facility"
      case Dataset => "dataset"
      case Cro => "cro"
      case Software => "software"
      case Hardware => "hardware"
      case MouseModel => "mouse_model"
      case CellLine => "cell_line"
      case Protocol => "protocol"
      case Database => "database"
      case Infrastructure => "infrastructure"
      case Other => "other"
    }
  }

  /** `list(ResourceType)`: every member, in declaration order. */
  const AllResourceTypes: seq<ResourceType> :=
    [CoreFacility, Dataset, Cro, Software, Hardware, MouseModel, CellLine,
     Protocol, Database, Infrastructure, Other]

  /** The fields of a catalog resource that the agents read. */
  datatype Resource = Resource(
    id: int,
    name: string,
    description: string,
    rtype: ResourceType,
    organization: Option<string>,
    isActive: bool)
}

module GapModel {
  import opened Wrappers

  datatype GapPriority = Critical | High | Medium | Low
  {
    function Value(): string
    {
      match this
      case Critical => "critical"
      case High => "high"
      case Medium => "medium"
      case Low => "low"
    }

    /** The tier order: low < medium < high < critical. */
    function Rank(): nat
    {
      match this
      case Low => 0
      case Medium => 1
      case High => 2
      case Critical => 3
    }
  }

  /** A missing capability with its scores (`id` is unset until persisted). */
  datatype Gap = Gap(
    id: Option<int>,
    capabilityId: Option<int>,
    description: string,
    estimatedCost: Option<real>,
    estimatedTime: Option<real>,
    blockedValue: real,
    numBlocked: nat,
    priority: GapPriority,
    impactScore: real)
}

module MappingModel {

  /** A problem's need for a capability; `isRequired` is 1 (required) or 0 (optional). */
  datatype ProblemCapabilityMapping = ProblemCapabilityMapping(
    problemId: int,
    capabilityId: int,
    confidenceScore: real,
    isRequired: int)

  /** How well a resource fills a capability. */
  datatype CapabilityResourceMapping = CapabilityResourceMapping(
    capabilityId: int,
    resourceId: int,
    matchScore: real)
}
