/** Window assembly (`PrayerTimeService.prayerWindows`). The astronomical
    calculator is a parameter: it maps a location, calculation parameters and a
    day number to the day's six raw instants, or to nothing when it cannot
    compute them. */
module PrayerTimeService {
  import opened Wrappers
  import opened PrayerTypes

  datatype MadhabType = Shafi | Hanafi

  datatype CalculationMethodType = MuslimWorldLeague | Egyptian | UmMalaysia | NorthAmerica | MuslimLeagueOfIndia

  /** The calculator's own conventions. */
  datatype AdhanMadhab = AdhanShafi | AdhanHanafi

  datatype AdhanMethod = MethodMuslimWorldLeague | MethodEgyptian | MethodSingapore | MethodNorthAmerica | MethodKarachi

  datatype CalculationParameters = CalculationParameters(calcMethod: AdhanMethod, madhab: AdhanMadhab)

  /** The six instants the calculator yields for one day, in seconds. */
  datatype RawTimes = RawTimes(fajr: int, sunrise: int, dhuhr: int, asr: int, maghrib: int, isha: int)

  /** A location, as the settings store it. */
  datatype Coordinate = Coordinate(latitude: real, longitude: real)

  datatype PrayerWindow = PrayerWindow(prayer: PrayerType, start: int, end: int, scheduledTime: int)

  /** Fallback length of the Isha window when the next day cannot be computed. */
  const IshaFallbackSeconds := 6 * 3600

  /** `adhanParameters`: the calculator convention for each setting. */
  function AdhanMethodFor(m: CalculationMethodType): AdhanMethod {
    match m
    case MuslimWorldLeague => MethodMuslimWorldLeague
    case Egyptian => MethodEgyptian
    case UmMalaysia => MethodSingapore
    case NorthAmerica => MethodNorthAmerica
    case MuslimLeagueOfIndia => MethodKarachi
  }

  function AdhanMadhabFor(m: MadhabType): AdhanMadhab {
    if m == Hanafi then AdhanHanafi else AdhanShafi
  }

  function ParamsFor(calcMethod: CalculationMethodType, madhab: MadhabType): CalculationParameters {
    CalculationParameters(AdhanMethodFor(calcMethod), AdhanMadhabFor(madhab))
  }

  /** The settings map one-to-one onto the calculator's conventions; Hanafi
      maps to Hanafi, Shafi to Shafi. */
  lemma ParamsMapping(m1: CalculationMethodType, m2: CalculationMethodType, d: MadhabType)
    ensures AdhanMethodFor(m1) == AdhanMethodFor(m2) ==> m1 == m2
    ensures AdhanMadhabFor(d) == AdhanHanafi <==> d == Hanafi
    ensures AdhanMethodFor(UmMalaysia) == MethodSingapore && AdhanMethodFor(MuslimLeagueOfIndia) == MethodKarachi
  {
  }

  /** The five windows from today's raw times and, when computable, tomorrow's. */
  function Assemble(today: Option<RawTimes>, tomorrow: Option<RawTimes>): seq<PrayerWindow> {
    match today
    case None => []
    case Some(t) =>
      var ishaEnd := match tomorrow
        case Some(n) => n.fajr
        case None => t.isha + IshaFallbackSeconds;
      [ PrayerWindow(Fajr, t.fajr, t.sunrise, t.fajr),
        PrayerWindow(Dhuhr, t.dhuhr, t.asr, t.dhuhr),
        PrayerWindow(Asr, t.asr, t.maghrib, t.asr),
        PrayerWindow(Maghrib, t.maghrib, t.isha, t.maghrib),
        PrayerWindow(Isha, t.isha, ishaEnd, t.isha) ]
  }

  /** The calculator: a location, parameters and a day number to that day's raw times. */
  type Calculator = (Coordinate, CalculationParameters, int) -> Option<RawTimes>

  /** `prayerWindows(for:latitude:longitude:method:madhab:)`: one calculator call
      for the day and one for the next, both at the same location with the same
      parameters. */
  function PrayerWindows(calculator: Calculator, at: Coordinate, day: int,
                         calcMethod: CalculationMethodType, madhab: MadhabType): seq<PrayerWindow>
  {
    var params := ParamsFor(calcMethod, madhab);
    Assemble(calculator(at, params, day), calculator(at, params, day + 1))
  }

  /** No schedule when the calculator yields nothing; otherwise five windows in
      daily order, each scheduled at its start. */
  lemma AssembleShape(today: Option<RawTimes>, tomorrow: Option<RawTimes>)
    ensures today.None? ==> Assemble(today, tomorrow) == []
    ensures today.Some? ==> |Assemble(today, tomorrow)| == 5
    ensures today.Some? ==> forall i :: 0 <= i < 5 ==>
              Assemble(today, tomorrow)[i].prayer == AllCases[i] &&
              Assemble(today, tomorrow)[i].scheduledTime == Assemble(today, tomorrow)[i].start
  {
  }

  /** Fajr ends at sunrise; Dhuhr, Asr and Maghrib end where the next window
      starts; Isha ends at tomorrow's Fajr, or six hours after Isha. */
  lemma AssembleBoundaries(t: RawTimes, tomorrow: Option<RawTimes>)
    ensures var ws := Assemble(Some(t), tomorrow);
            && ws[0].start == t.fajr && ws[0].end == t.sunrise
            && (forall i :: 1 <= i < 4 ==> ws[i].end == ws[i + 1].start)
            && ws[1].start == t.dhuhr
            && ws[4].end == (if tomorrow.Some? then tomorrow.value.fajr else t.isha + IshaFallbackSeconds)
  {
  }

  /** Raw times in strictly increasing order (with Isha's end after Isha) give
      chronological windows, each non-empty. */
  lemma AssembleChronological(t: RawTimes, tomorrow: Option<RawTimes>)
    requires t.fajr < t.sunrise <= t.dhuhr < t.asr < t.maghrib < t.isha
    requires tomorrow.Some? ==> t.isha < tomorrow.value.fajr
    ensures var ws := Assemble(Some(t), tomorrow);
            && (forall i :: 0 <= i < |ws| ==> ws[i].start < ws[i].end)
            && (forall i, j :: 0 <= i < j < |ws| ==> ws[i].scheduledTime < ws[j].scheduledTime)
            && (forall i :: 0 <= i < |ws| - 1 ==> ws[i].end <= ws[i + 1].start)
  {
  }

  /** The calculator is asked for the day and the next day at the same location
      with the same parameters, into which the madhab setting has been mapped. */
  lemma PrayerWindowsUsesBothDays(calculator: Calculator, at: Coordinate, day: int,
                                  calcMethod: CalculationMethodType, madhab: MadhabType)
    ensures var params := ParamsFor(calcMethod, madhab);
            calculator(at, params, day).None? ==> PrayerWindows(calculator, at, day, calcMethod, madhab) == []
    ensures var params := ParamsFor(calcMethod, madhab);
            calculator(at, params, day).Some? && calculator(at, params, day + 1).Some? ==>
              PrayerWindows(calculator, at, day, calcMethod, madhab)[4].end == calculator(at, params, day + 1).value.fajr
  {
  }

  /** Whatever the calculator yields, the windows are none or the five prayers
      once each in daily order, so no two windows share a prayer. */
  lemma {:induction false} PrayerWindowsPrayers(calculator: Calculator, at: Coordinate, day: int,
                                                calcMethod: CalculationMethodType, madhab: MadhabType)
    ensures var ws := PrayerWindows(calculator, at, day, calcMethod, madhab);
            && (|ws| == 0 || |ws| == 5)
            && (forall i :: 0 <= i < |ws| ==> ws[i].prayer == AllCases[i])
            && (forall a, b :: 0 <= a < b < |ws| ==> ws[a].prayer != ws[b].prayer)
  {
    var params := ParamsFor(calcMethod, madhab);
    AssembleShape(calculator(at, params, day), calculator(at, params, day + 1));
    AllCasesComplete();
  }
}
