# Guys Trip 2026 voting page: a Dafny model

The page lists fifteen destinations and every Friday-to-Sunday weekend of
2026. Visitors rate any option from 1 to 5 stars, the page shows how many
ratings each option has, and a button picks the trip. The chosen trip is the
destination with the highest average rating and the weekend with the highest
average rating. An option with no ratings scores 0, and a tie goes to the
option listed first.

The model has six modules:

- `Calendar` is the part of JavaScript's local `Date` that the weekend
  generator uses. A date is a day number counted from January 1, 2026, which
  is a Thursday. `Weekday`, `ToDate` and `DayNumber` give what `getDay`,
  `getFullYear`/`getMonth`/`getDate` and the `Date` constructor give,
  under the Gregorian leap-year rule.
- `DateFormat` is the "Mon D" display form of a date (for example "Jan 2"),
  together with a reader for it.
- `Weekends` is `generateWeekends`. `GenerateWeekends` is a method with the
  source's two loops. It is proved equal to `WeekendLabels`, a function that
  lists one label per Friday of the year.
- `Votes` is the vote store, a map from an option to its ratings in the order
  they were cast. It holds the initialisation, the update `handleVote` makes
  and the vote count the page shows.
- `Scoring` is `calculateScores`. It holds the mean rating, the left fold
  `reduce((a, b) => a.score >= b.score ? a : b)` and the trip it selects.
- `TripApp` is the component itself: a class whose fields are the state
  cells. Its methods are the first render, the mount effect, the vote handler
  and the score button.

## Model

| member | source | states |
|---|---|---|
| Calendar.ToDate | src/App.js:27-38 | the date read from a day number is a valid Gregorian date whose day number is that number |
| Calendar.DayNumber | src/App.js:27 | the day number of a date, `new Date(year, month - 1, day)`: days from January 1, 2026, counting the days of the earlier years and months |
| Calendar.DayNumberInYear | src/App.js:27 | a date's day number lies between January 1 of its year and January 1 of the next year |
| Calendar.Weekday | src/App.js:29 | `getDay()` of a day number: 0 for Sunday to 6 for Saturday, with January 1, 2026 a Thursday (4) |
| Calendar.WeekdayPeriodic | src/App.js:38 | days a whole number of weeks apart fall on the same weekday, so stepping by 7 from a Friday stays on Fridays |
| Calendar.ToDateOfDayNumber | src/App.js:27-38 | reading back the date of a date's day number gives the same date, so day numbers and dates correspond one to one |
| Calendar.DayNumberInjective | src/App.js:32-38 | distinct valid dates have distinct day numbers |
| Calendar.YearOfDay | src/App.js:31 | `getFullYear()` of a day equals `y` exactly when the day lies between January 1 of `y` and January 1 of the following year |
| Calendar.DateFrom | src/App.js:29-38 | the date `n` days after January 1 of `y` is valid, in `y` or later, and has day number January 1 of `y` plus `n` (day stepping crosses month and year ends) |
| Weekends.FirstFridayIsFirst | src/App.js:27-29 | the first loop stops in the first week of the year, on a Friday, with no Friday of the year before it |
| Weekends.FridayCountBounds | src/App.js:31-38 | the last start is still in the year, and one more weekly step would leave it |
| Weekends.WeekendStarts | src/App.js:29-38 | the day numbers the second loop starts weekends on: one per week from the first Friday; each is a Friday inside the year, and there are as many as the loop makes steps |
| Weekends.WeekendLabel | src/App.js:32-37 | the label pushed for a weekend: the formatted start, an en dash (U+2013), the formatted end two days later |
| Weekends.WeekendLabels | src/App.js:24-41 | the closed-form list the loop is proved equal to: the labels of the year's weekend starts, in order |
| Weekends.WeekendLabelReadsBack | src/App.js:35-37 | the start's month and day read back from the head of a label, and the end's from what follows the dash |
| Weekends.WeekendStartsAreTheFridays | src/App.js:29-38 | a day is a weekend start exactly when it is a Friday of the year, so no Friday is skipped and none is added |
| Weekends.WeekendStartsChronological | src/App.js:29-38 | the first start is the first Friday, each start is seven days after the previous one, and the starts increase strictly |
| Weekends.WeekendEndsOnSunday | src/App.js:32-34 | a weekend that starts on a Friday ends two days later, on a Sunday |
| Weekends.LabelDeterminesMonthDay | src/App.js:35-37 | a label determines the month and day of its start |
| Weekends.LabelDeterminesStart | src/App.js:35-37 | within one year, two weekends with the same label have the same start |
| Weekends.WeekendLabelsDistinct | src/App.js:35-37 | the labels of one year are pairwise distinct, so each weekend has a vote key of its own |
| Weekends.WeekendsEndInYear | src/App.js:31-34 | when the year's last Friday is at least three days before its end, every weekend also ends in the year |
| Weekends.TripYearWeekends | src/App.js:24-41 | 2026 has 52 weekends, from Friday January 2 to Friday December 25 |
| Weekends.TripYearWeekendsEndInYear | src/App.js:31-34 | no weekend of 2026 ends in 2027 |
| Weekends.FirstTripWeekendLabel | src/App.js:35-37 | the first weekend of 2026 is labelled "Jan 2–Jan 4" |
| Weekends.LastWeekendMayCrossYear | src/App.js:31 | the loop tests only the start date: with the same loop, 2027 gives 53 weekends, and the last one starts on December 31, 2027 and ends on January 2, 2028 |
| Weekends.GenerateWeekends | src/App.js:24-41 | the two loops (step a day to the first Friday, then a week at a time while the start is in the year) terminate and return exactly the labels of the year's Fridays, in order |
| DateFormat.DigitChar | src/App.js:35-36 | a digit character reads back as the number it was written for |
| DateFormat.FormatDate | src/App.js:35-36 | the assumed rendering of `toLocaleDateString("en-US", { month: "short", day: "numeric" })`: the three-letter month abbreviation, one space, the day in decimal without a leading zero ("Jan 2", "Dec 25"); `ParseFormatDate` is its partner |
| DateFormat.MonthNumber | src/App.js:35-36 | a recognised abbreviation is the abbreviation of the month it returns |
| DateFormat.MonthNumberOfAbbrev | src/App.js:35-36 | every month's abbreviation reads back as that month |
| DateFormat.ParseFormatDate | src/App.js:35-37 | a formatted date, followed by nothing or by a non-digit such as the en dash, reads back as its month and day |
| DateFormat.FormatDatePrefixDetermines | src/App.js:35-37 | two formatted dates that start equal strings, each followed by a non-digit, have the same month and day |
| Votes.Lookup | src/App.js:66 | `votes[option]` with the empty list as default: the ratings stored for an option, or none when the store has no such key |
| Votes.VoteCount | src/App.js:114 | the count shown is the number of ratings, and it is 0 exactly when the option has no key or an empty list |
| Votes.Vote | src/App.js:56-61 | a vote adds its option as a key if needed, appends the value to that option's ratings and leaves every other option unchanged |
| Votes.VoteCountsOne | src/App.js:56-61 | a vote raises its option's count by one and leaves every other count unchanged |
| Votes.VoteAllAppends | src/App.js:56-61 | after a series of votes for one option, its ratings are the old ones followed by the new ones in order, and no other option changes |
| Votes.InitVotes | src/App.js:49-53 | the initial store has a key exactly for each destination and each weekend, and every key maps to the empty list |
| Scoring.Sum | src/App.js:68 | `reduce((a, b) => a + b, 0)`: the ratings added up from the left, 0 for none |
| Scoring.Mean | src/App.js:66-69 | the score is 0 with no ratings, and otherwise it times the number of ratings equals their sum |
| Scoring.SumBounds | src/App.js:68 | ratings between `lo` and `hi` sum to between `lo` and `hi` times their number |
| Scoring.MeanWithinRatings | src/App.js:66-69 | when every rating is between 1 and 5, as the buttons allow, a score with ratings lies between 1 and 5 |
| Scoring.MeanMovesTowardVote | src/App.js:66-69 | one more rating moves the mean toward that rating and never past it |
| Scoring.Score | src/App.js:66-69 | an option's score: the mean of its ratings, 0 when it has none or no key |
| Scoring.ScoreAll | src/App.js:65-79 | the `map` over a list of options: each option paired with its score, in the list's order |
| Scoring.TopIndex | src/App.js:81-84 | the fold ends on an entry with the highest score, and every entry before it scores strictly less |
| Scoring.Top | src/App.js:81-84 | the fold fails exactly on an empty list; otherwise it returns the first entry with the highest score |
| Scoring.FirstBestUnique | src/App.js:81-84 | at most one entry is the first one with the highest score |
| Scoring.WinnerUnique | src/App.js:81-84 | at most one option is the first one with the highest score |
| Scoring.TopIsWinner | src/App.js:65-84 | the name the fold keeps over the scored options has the highest score, and no earlier option scores as much |
| Scoring.BestTrip | src/App.js:64-90 | the trip fails exactly when either list is empty; otherwise its destination and its weekend are each the first option with the highest score |
| TripApp.App.constructor | src/App.js:5-46 | the first render holds the fifteen destinations, the 2026 weekend labels, an empty store and no trip |
| TripApp.App.InitializeVotes | src/App.js:49-54 | the mount effect replaces the store with one that has an empty list for every destination and weekend, and leaves the trip unchanged |
| TripApp.App.HandleVote | src/App.js:56-62 | the store becomes the old store with the vote applied; keys and earlier ratings are kept, and the trip is unchanged |
| TripApp.App.CalculateScores | src/App.js:64-91 | the trip becomes the best trip of the current store; when a list is empty (where `reduce` would throw) nothing changes |
| TripApp.EqualScoresPickFirst | src/App.js:81-84 | when all options score the same, the first option wins |
| TripApp.TieGoesToEarlierOption | src/App.js:81-84 | Miami rated 5 and 3 and Austin rated 4 both score 4, and Miami, listed first, is chosen |
| TripApp.FreshScoresEqual | src/App.js:66-69 | in a store with no ratings every option scores 0 |
| TripApp.FreshStorePicksFirstOptions | src/App.js:64-90 | with no ratings at all, the trip is the first destination and the first weekend |

## Left out

- The JSX rendering, the CSS classes, the heading and the star buttons are not modelled. The buttons only fix the ratings to 1..5, and `MeanWithinRatings` takes that as its precondition.
- React's state batching and re-rendering are not modelled. Each state setter becomes an assignment to a field. The mount effect is a method the caller runs once after the constructor.
- `Date` time zones, daylight saving and the host locale are not modelled. Dates are whole local days. The output of `toLocaleDateString("en-US", { month: "short", day: "numeric" })` is taken to be "Mon D".
- JavaScript's double-precision numbers are modelled as exact integers (ratings) and exact reals (means). Rounding in the division is not captured.
- The constant emoji field of the chosen trip is not modelled.
- GenerateWeekends: the source fixes the year at 2026, and the model takes the year as a parameter. Day numbers start at 2026, so years before 2026 are not covered.
- Votes.Vote, Votes.Lookup, Votes.VoteCount: option names are plain map keys. In the source the store is a JavaScript object, so a key that names an `Object.prototype` member (`constructor`, `__proto__`, `toString`, …) reads as that member. For such names the vote throws, the displayed count comes from that member, and scoring throws. The model treats them like any other name. The page only passes its fifteen destination names and the generated weekend labels, and none of them is such a name.
- The setters `setDestinations` and `setWeekends` are never called, so `destinations` and `weekends` are constant fields.

The model follows the code in three places where a plain reading of the page's behaviour could differ:

- A vote for an option with no key creates the key. `updated[option] || []` starts a fresh list. This holds for ordinary names. Names of `Object.prototype` members are the exception noted above.
- The mount effect builds a new object instead of merging into the old one. Ratings cast before it would be dropped.
- `reduce` with no initial value throws on an empty list. This is modelled as an `Err` result, and `CalculateScores` then leaves the state unchanged.
