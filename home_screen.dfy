/**
 * The decisions the home screen makes from the session state: which
 * greeting to show for the hour of day, the welcome line, the medicine
 * count, and the "upcoming medicines" section with its first three entries
 * and its "see all" link. The hour is a parameter: the clock is not modelled.
 */
module HomeScreen {
  import opened Results
  import opened Entities

  const GoodMorning := "Günaydın"
  const GoodDay := "İyi Günler"
  const GoodEvening := "İyi Akşamlar"
  const GoodNight := "İyi Geceler"

  /** How many entries the upcoming section lists before offering "see all". */
  const UpcomingLimit := 3
  /** Label of the link to the full list. */
  const SeeAllLabel := "Tümünü Gör"

  /** The greeting for an hour of the day: every hour gets exactly one of the four. */
  function Greeting(hour: int): (g: string)
    ensures g == GoodMorning <==> 6 <= hour <= 11
    ensures g == GoodDay <==> 12 <= hour <= 17
    ensures g == GoodEvening <==> 18 <= hour <= 22
    ensures g == GoodNight <==> hour < 6 || 22 < hour
  {
    if 6 <= hour <= 11 then GoodMorning
    else if 12 <= hour <= 17 then GoodDay
    else if 18 <= hour <= 22 then GoodEvening
    else GoodNight
  }

  /** Night covers exactly 23:00 and 00:00 to 05:59 of a day's hours. */
  lemma NightHours(hour: int)
    requires 0 <= hour < 24
    ensures Greeting(hour) == GoodNight <==> hour == 23 || hour <= 5
  {
  }

  /** The welcome line: the greeting, a comma and a space, then the user's name (empty when logged out). */
  function WelcomeText(hour: int, currentUser: Option<User>): (t: string)
    ensures |t| >= |Greeting(hour)| + 2
    ensures t[..|Greeting(hour)|] == Greeting(hour)
    ensures t[|Greeting(hour)|..|Greeting(hour)| + 2] == ", "
    ensures currentUser.Some? ==> t[|Greeting(hour)| + 2..] == currentUser.value.username
    ensures currentUser.None? ==> |t| == |Greeting(hour)| + 2
  {
    var username := if currentUser.Some? then currentUser.value.username else "";
    Greeting(hour) + ", " + username
  }

  /** The upcoming section: the entries it lists and the label of its link to the full list, if any. */
  datatype Upcoming = Upcoming(shown: seq<Medicine>, seeAll: Option<string>)

  /**
   * `take(3)` plus the "see all" link: the first entries of the list in list
   * order, at most three; the link is there exactly when some entry is not
   * listed.
   */
  function UpcomingSection(medicines: seq<Medicine>): (u: Upcoming)
    ensures |u.shown| == if |medicines| < UpcomingLimit then |medicines| else UpcomingLimit
    ensures u.shown == medicines[..|u.shown|]
    ensures u.seeAll.Some? <==> |u.shown| < |medicines|
    ensures u.seeAll.Some? ==> u.seeAll.value == SeeAllLabel
  {
    var shown := if |medicines| <= UpcomingLimit then medicines else medicines[..UpcomingLimit];
    Upcoming(shown, if |medicines| > UpcomingLimit then Some(SeeAllLabel) else None)
  }

  /** What the home screen shows. */
  datatype HomeView = HomeView(welcome: string, medicineCount: int, upcoming: Option<Upcoming>)

  /** The home screen's content for the hour and the session state. */
  function Home(hour: int, currentUser: Option<User>, medicines: seq<Medicine>): (v: HomeView)
    ensures v.welcome == WelcomeText(hour, currentUser)
    ensures v.medicineCount == |medicines|
    ensures v.upcoming.Some? <==> medicines != []
    ensures v.upcoming.Some? ==> v.upcoming.value == UpcomingSection(medicines)
  {
    HomeView(WelcomeText(hour, currentUser), |medicines|,
             if |medicines| > 0 then Some(UpcomingSection(medicines)) else None)
  }
}
