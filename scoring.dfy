/** Scoring rules of lib/risk-utils.ts: severity, the four bands, and the
    colour and Spanish label tables that every other component reads. */
module Scoring {

  /** The qualitative tiers, ordered Low < Moderate < High < Critical. */
  datatype Band = Low | Moderate | High | Critical

  /** The lifecycle attribute of a risk (no transition graph is enforced). */
  datatype Status = Open | Monitoring | Closed

  /** Severity is the product of likelihood and impact; the function itself
      places no bound on its inputs. */
  function ComputeSeverity(likelihood: int, impact: int): (severity: int)
    ensures 1 <= likelihood <= 5 && 1 <= impact <= 5 ==> 1 <= severity <= 25
    ensures likelihood >= 1 && impact >= 1 ==> severity >= likelihood && severity >= impact
  {
    likelihood * impact
  }

  /** The threshold rule: an if-chain over the upper bounds 4, 9 and 16. */
  function ComputeBand(severity: int): (b: Band)
    ensures b == Low <==> severity <= 4
    ensures b == Moderate <==> 5 <= severity <= 9
    ensures b == High <==> 10 <= severity <= 16
    ensures b == Critical <==> 17 <= severity
  {
    if severity <= 4 then Low
    else if severity <= 9 then Moderate
    else if severity <= 16 then High
    else Critical
  }

  /** Position of a band in the order Low < Moderate < High < Critical. */
  function Rank(b: Band): nat
  {
    match b
    case Low => 0
    case Moderate => 1
    case High => 2
    case Critical => 3
  }

  /** The closed interval of severities in [1,25] that each band covers. */
  function Lowest(b: Band): int
  {
    match b
    case Low => 1
    case Moderate => 5
    case High => 10
    case Critical => 17
  }

  function Highest(b: Band): int
  {
    match b
    case Low => 4
    case Moderate => 9
    case High => 16
    case Critical => 25
  }

  /** A higher severity never lands in a lower band. */
  lemma BandMonotone(s: int, t: int)
    requires s <= t
    ensures Rank(ComputeBand(s)) <= Rank(ComputeBand(t))
  {
    if ComputeBand(s) == Critical {
      assert ComputeBand(t) == Critical;
    } else if ComputeBand(s) == High {
      assert ComputeBand(t) in {High, Critical};
    } else if ComputeBand(s) == Moderate {
      assert ComputeBand(t) != Low;
    }
  }

  /** Over the reachable range [1,25] the four intervals partition the
      severities: each severity lies in the interval of its band and in
      no other band's interval, and the intervals leave no gap. */
  lemma BandsPartitionRange(s: int, b: Band)
    requires 1 <= s <= 25
    ensures ComputeBand(s) == b <==> Lowest(b) <= s <= Highest(b)
  {
  }

  /** Consecutive intervals touch: the partition has no gap between bands. */
  lemma BandIntervalsAdjacent()
    ensures Lowest(Low) == 1 && Highest(Critical) == 25
    ensures Highest(Low) + 1 == Lowest(Moderate)
    ensures Highest(Moderate) + 1 == Lowest(High)
    ensures Highest(High) + 1 == Lowest(Critical)
    ensures forall b: Band :: Lowest(b) <= Highest(b)
  {
  }

  /** The boundary severities named in the design. */
  lemma BandBoundaries()
    ensures ComputeBand(4) == Low && ComputeBand(5) == Moderate
    ensures ComputeBand(9) == Moderate && ComputeBand(10) == High
    ensures ComputeBand(16) == High && ComputeBand(17) == Critical
  {
  }

  /** Every band is reached by some (likelihood, impact) pair in [1,5]. */
  lemma EveryBandReachable(b: Band)
    ensures exists l, i :: 1 <= l <= 5 && 1 <= i <= 5 && ComputeBand(ComputeSeverity(l, i)) == b
  {
    match b
    case Low => assert ComputeBand(ComputeSeverity(1, 1)) == Low;
    case Moderate => assert ComputeBand(ComputeSeverity(1, 5)) == Moderate;
    case High => assert ComputeBand(ComputeSeverity(2, 5)) == High;
    case Critical => assert ComputeBand(ComputeSeverity(5, 4)) == Critical;
  }

  /** Creating a risk with likelihood 3 and impact 4 yields severity 12, High. */
  lemma ThreeByFourIsHigh()
    ensures ComputeSeverity(3, 4) == 12 && ComputeBand(ComputeSeverity(3, 4)) == High
  {
  }

  /** The strings stored in the band and status columns. */
  function BandName(b: Band): string
  {
    match b
    case Low => "Low"
    case Moderate => "Moderate"
    case High => "High"
    case Critical => "Critical"
  }

  function StatusName(s: Status): string
  {
    match s
    case Open => "Open"
    case Monitoring => "Monitoring"
    case Closed => "Closed"
  }

  /** Reading a band name back; any other string is not a band. */
  function ParseBand(name: string): (r: Option<Band>)
    ensures forall b: Band :: BandName(b) == name <==> r == Some(b)
  {
    if name == "Low" then Some(Low)
    else if name == "Moderate" then Some(Moderate)
    else if name == "High" then Some(High)
    else if name == "Critical" then Some(Critical)
    else None
  }

  function ParseStatus(name: string): (r: Option<Status>)
    ensures forall s: Status :: StatusName(s) == name <==> r == Some(s)
  {
    if name == "Open" then Some(Open)
    else if name == "Monitoring" then Some(Monitoring)
    else if name == "Closed" then Some(Closed)
    else None
  }

  lemma BandNameRoundTrip(b: Band)
    ensures ParseBand(BandName(b)) == Some(b)
  {
  }

  lemma StatusNameRoundTrip(s: Status)
    ensures ParseStatus(StatusName(s)) == Some(s)
  {
  }

  /** The light-theme class list of a stored band: the grey default
      exactly when the text is not one of the four band names. */
  function BandColor(band: string): (c: string)
    ensures c == LightTable(None) <==> ParseBand(band).None?
  {
    KnownNotGrey(ParseBand(band));
    LightTable(ParseBand(band))
  }

  /** The dark-theme class list, with the same default branch. */
  function BandColorDark(band: string): (c: string)
    ensures c == DarkTable(None) <==> ParseBand(band).None?
  {
    KnownNotGrey(ParseBand(band));
    DarkTable(ParseBand(band))
  }

  function LightTable(b: Option<Band>): string
  {
    match b
    case Some(Low) => "bg-green-100 text-green-800 border-green-200"
    case Some(Moderate) => "bg-yellow-100 text-yellow-800 border-yellow-200"
    case Some(High) => "bg-orange-100 text-orange-800 border-orange-200"
    case Some(Critical) => "bg-red-100 text-red-800 border-red-200"
    case None => "bg-gray-100 text-gray-800 border-gray-200"
  }

  function DarkTable(b: Option<Band>): string
  {
    match b
    case Some(Low) => "dark:bg-green-900 dark:text-green-100 dark:border-green-800"
    case Some(Moderate) => "dark:bg-yellow-900 dark:text-yellow-100 dark:border-yellow-800"
    case Some(High) => "dark:bg-orange-900 dark:text-orange-100 dark:border-orange-800"
    case Some(Critical) => "dark:bg-red-900 dark:text-red-100 dark:border-red-800"
    case None => "dark:bg-gray-900 dark:text-gray-100 dark:border-gray-800"
  }

  /** Each table gives its five entries five different strings. */
  /** No band shares the grey fallback's classes. */
  lemma KnownNotGrey(b: Option<Band>)
    ensures b.Some? ==> LightTable(b) != LightTable(None) && DarkTable(b) != DarkTable(None)
  {
    if b.Some? {
      TablesInjective(b, None);
    }
  }

  lemma TablesInjective(a: Option<Band>, b: Option<Band>)
    requires a != b
    ensures LightTable(a) != LightTable(b)
    ensures DarkTable(a) != DarkTable(b)
  {
    match a {
      case None => GreyLightDiffers(b); GreyDarkDiffers(b);
      case Some(Low) => LowLightDiffers(b); LowDarkDiffers(b);
      case Some(Moderate) => ModerateLightDiffers(b); ModerateDarkDiffers(b);
      case Some(High) => HighLightDiffers(b); HighDarkDiffers(b);
      case Some(Critical) => CriticalLightDiffers(b); CriticalDarkDiffers(b);
    }
  }

  lemma GreyLightDiffers(b: Option<Band>)
    requires b != None
    ensures LightTable(None) != LightTable(b)
  {
    match b {
      case None => assert false;
      case Some(Low) =>
      case Some(Moderate) =>
      case Some(High) =>
      case Some(Critical) =>
    }
  }

  lemma GreyDarkDiffers(b: Option<Band>)
    requires b != None
    ensures DarkTable(None) != DarkTable(b)
  {
    match b {
      case None => assert false;
      case Some(Low) =>
      case Some(Moderate) =>
      case Some(High) =>
      case Some(Critical) =>
    }
  }

  lemma LowLightDiffers(b: Option<Band>)
    requires b != Some(Low)
    ensures LightTable(Some(Low)) != LightTable(b)
  {
    match b {
      case None =>
      case Some(Low) => assert false;
      case Some(Moderate) =>
      case Some(High) =>
      case Some(Critical) =>
    }
  }

  lemma LowDarkDiffers(b: Option<Band>)
    requires b != Some(Low)
    ensures DarkTable(Some(Low)) != DarkTable(b)
  {
    match b {
      case None =>
      case Some(Low) => assert false;
      case Some(Moderate) =>
      case Some(High) =>
      case Some(Critical) =>
    }
  }

  lemma ModerateLightDiffers(b: Option<Band>)
    requires b != Some(Moderate)
    ensures LightTable(Some(Moderate)) != LightTable(b)
  {
    match b {
      case None =>
      case Some(Low) =>
      case Some(Moderate) => assert false;
      case Some(High) =>
      case Some(Critical) =>
    }
  }

  lemma ModerateDarkDiffers(b: Option<Band>)
    requires b != Some(Moderate)
    ensures DarkTable(Some(Moderate)) != DarkTable(b)
  {
    match b {
      case None =>
      case Some(Low) =>
      case Some(Moderate) => assert false;
      case Some(High) =>
      case Some(Critical) =>
    }
  }

  lemma HighLightDiffers(b: Option<Band>)
    requires b != Some(High)
    ensures LightTable(Some(High)) != LightTable(b)
  {
    match b {
      case None =>
      case Some(Low) =>
      case Some(Moderate) =>
      case Some(High) => assert false;
      case Some(Critical) =>
    }
  }

  lemma HighDarkDiffers(b: Option<Band>)
    requires b != Some(High)
    ensures DarkTable(Some(High)) != DarkTable(b)
  {
    match b {
      case None =>
      case Some(Low) =>
      case Some(Moderate) =>
      case Some(High) => assert false;
      case Some(Critical) =>
    }
  }

  lemma CriticalLightDiffers(b: Option<Band>)
    requires b != Some(Critical)
    ensures LightTable(Some(Critical)) != LightTable(b)
  {
    match b {
      case None =>
      case Some(Low) =>
      case Some(Moderate) =>
      case Some(High) =>
      case Some(Critical) => assert false;
    }
  }

  lemma CriticalDarkDiffers(b: Option<Band>)
    requires b != Some(Critical)
    ensures DarkTable(Some(Critical)) != DarkTable(b)
  {
    match b {
      case None =>
      case Some(Low) =>
      case Some(Moderate) =>
      case Some(High) =>
      case Some(Critical) => assert false;
    }
  }

  /** Names that denote different bands (or a band and a non-band) get
      different colours in both themes. */
  lemma BandColorsDistinct(x: string, y: string)
    requires ParseBand(x) != ParseBand(y)
    ensures BandColor(x) != BandColor(y)
    ensures BandColorDark(x) != BandColorDark(y)
  {
    var a, b := ParseBand(x), ParseBand(y);
    TablesInjective(a, b);
    assert BandColor(x) == LightTable(a) && BandColor(y) == LightTable(b);
    assert BandColorDark(x) == DarkTable(a) && BandColorDark(y) == DarkTable(b);
  }

  /** The Spanish band labels; the Critical label is kept byte for byte as
      the source stores it (a doubly encoded "í"). */
  function BandLabel(b: Band): (l: string)
    ensures BandOfLabel(l) == Some(b)
  {
    match b
    case Low => "Bajo"
    case Moderate => "Moderado"
    case High => "Alto"
    case Critical => "CrÃ­tico"
  }

  function StatusLabel(s: Status): (l: string)
    ensures StatusOfLabel(l) == Some(s)
  {
    match s
    case Open => "Abierto"
    case Monitoring => "Monitoreando"
    case Closed => "Cerrado"
  }

  /** Reads a band label back, as a reader of the exported sheet would. */
  function BandOfLabel(l: string): Option<Band>
  {
    if l == "Bajo" then Some(Low)
    else if l == "Moderado" then Some(Moderate)
    else if l == "Alto" then Some(High)
    else if l == "CrÃ­tico" then Some(Critical)
    else None
  }

  function StatusOfLabel(l: string): Option<Status>
  {
    if l == "Abierto" then Some(Open)
    else if l == "Monitoreando" then Some(Monitoring)
    else if l == "Cerrado" then Some(Closed)
    else None
  }

  /** Both label tables are injective: no two keys share a label. */
  lemma LabelsDistinct(a: Band, b: Band, s: Status, t: Status)
    ensures a != b ==> BandLabel(a) != BandLabel(b)
    ensures s != t ==> StatusLabel(s) != StatusLabel(t)
  {
    if a != b {
      assert BandLabel(a)[0] != BandLabel(b)[0];
    }
    if s != t {
      assert StatusLabel(s)[0] != StatusLabel(t)[0];
    }
  }

  datatype Option<+T> = None | Some(value: T)
}
