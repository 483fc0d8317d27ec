# Cerebro study tracker — a verified Dafny model

Cerebro is a study tracker. A Spring backend records study sessions, summarises them by day and by
week, computes the user's current streak, and updates challenge progress. A React client provides:

- two Pomodoro timers and a course countdown that post sessions;
- flashcards, notes and tasks;
- course creation pages;
- an insights dashboard;
- a challenges page;
- an AI conversation history.

This project models that core in Dafny and proves its properties. There is one module per source file:

| module | models |
|---|---|
| `StudySession` | the session entity, with its timestamp pattern and duration rule |
| `StudySessionService` | the session service |
| `ChallengeService` | the challenge service |
| `PomodoroTimer` | the preset timer |
| `Pomodoro` | the preset timer with a long break |
| `CoursePage` | the course page countdown |
| `ClientClock` | what the timers send as timestamps |
| `FlashcardsPage` | the flashcards page |
| `FlashcardViewer` | the flashcard viewer |
| `InsightsPage` | the insights page |
| `ChallengesPage` | the challenges page |
| `AiHistory` | the AI history page |
| `NoteForm` | the note form |
| `NoteCard` | the note card |
| `NotesPage` | the notes page |
| `CourseCreatePage` | the course creation page |
| `CourseCreationForm` | the course creation form |
| `TasksPage` | the tasks page |
| `HomePage` | the home page |
| `DashboardLayout` | the dashboard layout |
| `PopularCourses` | the popular-courses catalogue |

Three shared modules support them:

- `Wrappers` holds `Option`.
- `Text` holds ASCII lower-casing, trimming, substring search and decimal digits.
- `Seqs` holds filtering, subsequences, first occurrence, de-duplication and sums.

The modules follow three modelling choices:

- **Stateful code is modelled as classes.** This covers the backend service, the timers and the pages that update their state step by step. Each class's fields are the source's state. Each method states its new state outright, usually through a pure transition function such as `AfterTick` or `AfterStop`. Lemmas about those functions carry the promised properties.
- **Pure code is modelled as functions and lemmas.** This covers filters, formatting, percentages and sorting.
- **The outside world is passed in as parameters.** Timestamps are integer seconds (milliseconds on the AI history page). Calendar days are integer day numbers. "Now", "today" and the start of the week are parameters. An HTTP request is modelled as a returned hand-off value. The server's answer is a parameter, and so is whether the request succeeded, for every handler whose later steps depend on it.

## Model

| member | source | states |
|---|---|---|
| StudySession.ParseLocal | src/main/java/com/cerebro/model/StudySession.java:17-20 | accepts only 19-character `yyyy-MM-ddTHH:mm:ss` text whose fields are in range, and yields a real date-time: a day past the end of its month is clamped to the month's last day |
| StudySession.FormatParseRoundTrip | src/main/java/com/cerebro/model/StudySession.java:17-20 | every real date-time formats to 19 characters that the pattern parses back to the same value |
| StudySession.ParseClampsShortMonths | src/main/java/com/cerebro/model/StudySession.java:17-20 | the 31st of February 2024 is read as the 29th, and the 31st of April as the 30th |
| StudySession.FormatParseClamped | src/main/java/com/cerebro/model/StudySession.java:17-20 | text whose fields are each in range is read as that date-time with the day clamped to its month |
| StudySession.FormatInjective | src/main/java/com/cerebro/model/StudySession.java:17-20 | two valid date-times with the same text are equal |
| StudySession.WholeMinutesBounds | src/main/java/com/cerebro/model/StudySession.java:51-58 | the truncation bounds for both orders of start and end, and antisymmetry |
| StudySession.Session.constructor | src/main/java/com/cerebro/model/StudySession.java:17-33 | a new session has no times and no duration |
| StudySession.Session.SetStartTime | src/main/java/com/cerebro/model/StudySession.java:44-46 | setting the start time changes only the start time |
| StudySession.Session.SetEndTime | src/main/java/com/cerebro/model/StudySession.java:51-58 | sets the end time; when both times are present the duration becomes their whole minutes, otherwise it is kept |
| StudySession.Session.SetDurationInMinutes | src/main/java/com/cerebro/model/StudySession.java:63-65 | overwrites only the duration |
| StudySession.StartAfterEndKeepsDuration | src/main/java/com/cerebro/model/StudySession.java:44-58 | setting the start after the end does not recompute the duration: it stays that of the first start |
| StudySessionService.DailyRowsExact | src/main/java/com/cerebro/service/StudySessionService.java:66-79 | every summary row has a positive total, and every grouped row with a date and a positive total is in the summary |
| StudySessionService.DailyRowsConcat | src/main/java/com/cerebro/service/StudySessionService.java:66-79 | the daily rows of a concatenation are the concatenation of the daily rows |
| StudySessionService.StreakLength | src/main/java/com/cerebro/service/StudySessionService.java:110-137 | the streak is at most the number of dates and is 0 when the latest date is not today |
| StudySessionService.StreakLengthIsLongestPrefix | src/main/java/com/cerebro/service/StudySessionService.java:126-129 | n is the streak exactly when the first n dates are today, today−1, … and the next date breaks the run |
| StudySessionService.BucketsPartitionWeek | src/main/java/com/cerebro/service/StudySessionService.java:82-107 | the seven weekday buckets together hold exactly the week's session minutes |
| StudySessionService.TotalMinutesConcat | src/main/java/com/cerebro/service/StudySessionService.java:147-157 | a total over two lists is defined iff both are and is their sum (a null duration makes the sum undefined) |
| StudySessionService.CourseTotalAfterSave | src/main/java/com/cerebro/service/StudySessionService.java:147-151 | saving a session changes a course's total only when it belongs to that course, and then by its duration |
| StudySessionService.Service.constructor | src/main/java/com/cerebro/service/StudySessionService.java:36-51 | the service starts with no sessions over a valid challenge store |
| StudySessionService.Service.CreateSession | src/main/java/com/cerebro/service/StudySessionService.java:36-51 | the duration is recomputed from the times when both are present; the session is appended with the next id; challenge progress is updated from its minutes only when it has a duration, and a failed update leaves progress unchanged |
| StudySessionService.Service.GetDailySummary | src/main/java/com/cerebro/service/StudySessionService.java:66-79 | returns exactly the filtered daily rows |
| StudySessionService.Service.GetWeeklySummary | src/main/java/com/cerebro/service/StudySessionService.java:82-107 | fails exactly when a session of the week has a null duration; otherwise seven day names with each bucket's 32-bit sum |
| StudySessionService.Service.AccumulateWeek | src/main/java/com/cerebro/service/StudySessionService.java:88-104 | the loop's buckets equal the 32-bit wrapped sums of each weekday's minutes, or fail on a null duration |
| StudySessionService.Service.GetCurrentStreak | src/main/java/com/cerebro/service/StudySessionService.java:110-137 | returns the longest run of consecutive days ending today and feeds it to the streak challenges (nothing when there are no dates) |
| ChallengeService.ToInt32 | src/main/java/com/cerebro/service/ChallengeService.java:49-61 | Java `int` wrap-around: the result is congruent to x modulo 2^32 and equals x when x fits |
| ChallengeService.ToInt32Add | src/main/java/com/cerebro/service/ChallengeService.java:59 | adding two wrapped ints wraps the mathematical sum |
| ChallengeService.ChallengeByIdFinds | src/main/java/com/cerebro/service/ChallengeService.java:51 | with unique ids, looking up a challenge's id finds that challenge |
| ChallengeService.ChallengeByIdAbsent | src/main/java/com/cerebro/service/ChallengeService.java:51 | an id no challenge carries is not found |
| ChallengeService.ChallengeStore.constructor | src/main/java/com/cerebro/service/ChallengeService.java:31-43 | an empty store is valid |
| ChallengeService.ChallengeStore.CreateChallenge | src/main/java/com/cerebro/service/ChallengeService.java:31-43 | appends the challenge with the next id and one zero-progress row for the creating user dated today |
| ChallengeService.ChallengeStore.FindRow | src/main/java/com/cerebro/service/ChallengeService.java:51 | finds the user's row for a challenge, or reports that none exists |
| ChallengeService.ChallengeStore.ApplyPass | src/main/java/com/cerebro/service/ChallengeService.java:47-77 | one transactional pass over the challenges of a type: succeeds exactly when no touched row fails (the hours threshold throws), and then the rows are the specified updated rows; on failure nothing changes |
| ChallengeService.ChallengeStore.UpdateProgressFromSession | src/main/java/com/cerebro/service/ChallengeService.java:47-77 | the rows become the result of the hours pass followed by the session-count pass, or stay unchanged when either throws |
| ChallengeService.ChallengeStore.UpdateProgressFromStreak | src/main/java/com/cerebro/service/ChallengeService.java:81-94 | the rows become the streak-updated rows |
| ChallengeService.ChallengeStore.DeleteChallengeAndProgress | src/main/java/com/cerebro/service/ChallengeService.java:101-105 | removes the challenge and exactly its progress rows, keeping everything else in order |
| ChallengeService.RowsOutside | src/main/java/com/cerebro/service/ChallengeService.java:103 | the loop keeps exactly the rows of other challenges, in order |
| ChallengeService.DeleteKeepsValid | src/main/java/com/cerebro/service/ChallengeService.java:101-105 | deleting keeps ids unique, one row per user and challenge, and ids below the counters |
| ChallengeService.SessionRowEffect | src/main/java/com/cerebro/service/ChallengeService.java:47-77 | the effect on each row: hours rows gain the wrapped minutes and complete at `targetValue` when it is positive, otherwise at `targetMinutes`; session-count rows gain one and complete at the target; other rows are unchanged |
| ChallengeService.SessionFailsExactly | src/main/java/com/cerebro/service/ChallengeService.java:55 | the session update fails iff the user has a row for an hours challenge whose threshold is undefined |
| ChallengeService.SessionCountIgnoresMinutes | src/main/java/com/cerebro/service/ChallengeService.java:64-76 | a session-count row ends the same whatever the session's minutes |
| ChallengeService.StreakRowEffect | src/main/java/com/cerebro/service/ChallengeService.java:81-94 | a streak row takes the streak as its value, completes at the target, and is dated today; other rows are unchanged |
| ChallengeService.CompletedIsNeverCleared | src/main/java/com/cerebro/service/ChallengeService.java:59-60 | no update ever clears a completed flag |
| ChallengeService.BrokenStreakKeepsCompletion | src/main/java/com/cerebro/service/ChallengeService.java:84-91 | a broken streak resets the value to 0 but leaves the row completed |
| PomodoroTimer.CeilMinutesBounds | frontend/cerebro/src/components/PomodoroTimer.jsx:89 | `Math.ceil(a / 60)` is the least number of whole minutes covering a seconds |
| PomodoroTimer.HandlersKeepValid | frontend/cerebro/src/components/PomodoroTimer.jsx:30-115 | every handler keeps the preset index in range, the seconds in 0..59, the remaining time within the period, and a start time only in work mode |
| PomodoroTimer.TickCountsDown | frontend/cerebro/src/components/PomodoroTimer.jsx:41-55 | a running tick removes exactly one second, and at 0:00 it stops the period |
| PomodoroTimer.StartKeepsFirstStartTime | frontend/cerebro/src/components/PomodoroTimer.jsx:62-69 | starting twice, or resuming after a pause, keeps the first start time |
| PomodoroTimer.PauseKeepsTime | frontend/cerebro/src/components/PomodoroTimer.jsx:72-74 | pausing only stops the timer |
| PomodoroTimer.RecordedDuration | frontend/cerebro/src/components/PomodoroTimer.jsx:84-90 | the posted duration is the elapsed work seconds rounded up to minutes |
| PomodoroTimer.RecordedOnlyWork | frontend/cerebro/src/components/PomodoroTimer.jsx:81 | a session is posted iff the mode is work and the start time, course and topic are present |
| PomodoroTimer.NoLongBreak | frontend/cerebro/src/components/PomodoroTimer.jsx:100-109 | after work the break is always the preset's break, whatever the session count |
| PomodoroTimer.Timer.constructor | frontend/cerebro/src/components/PomodoroTimer.jsx:20-27 | the timer starts at the first preset's 25:00 in work mode |
| PomodoroTimer.Timer.SelectPreset | frontend/cerebro/src/components/PomodoroTimer.jsx:30-38 | a preset change resets the timer to that preset's work period |
| PomodoroTimer.Timer.HandleStart | frontend/cerebro/src/components/PomodoroTimer.jsx:62-69 | the state becomes AfterStart |
| PomodoroTimer.Timer.HandlePause | frontend/cerebro/src/components/PomodoroTimer.jsx:72-74 | the state becomes AfterPause |
| PomodoroTimer.Timer.HandleStop | frontend/cerebro/src/components/PomodoroTimer.jsx:77-115 | posts the recorded work session, if any, and moves to the next period |
| PomodoroTimer.Timer.Tick | frontend/cerebro/src/components/PomodoroTimer.jsx:41-55 | counts down one second, or stops at 0:00 and posts |
| PomodoroTimer.FullWorkPeriod | frontend/cerebro/src/components/PomodoroTimer.jsx:41-115 | a full 25-minute period posts a 25-minute session and moves to a 5-minute break |
| Pomodoro.HandlersKeepValid | frontend/cerebro/src/components/Pomodoro.jsx:22-100 | every handler keeps the preset index in range, the seconds in 0..59, the remaining time within the period, a start time only in work mode, and a break only after a work period |
| Pomodoro.StopKeepsValid | frontend/cerebro/src/components/Pomodoro.jsx:64-100 | stopping keeps the timer state well-formed |
| Pomodoro.TickCountsDown | frontend/cerebro/src/components/Pomodoro.jsx:33-46 | a running tick removes one second, and at 0:00 it stops |
| Pomodoro.LongBreakEveryFourth | frontend/cerebro/src/components/Pomodoro.jsx:79-89 | after work the count rises by one, and the break is the 15-minute long break iff the new count is a multiple of 4 (or the preset's break equals 15) |
| Pomodoro.FourthBreakIsLong | frontend/cerebro/src/components/Pomodoro.jsx:83-85 | from a reset, the breaks after the first three work periods are short and the fourth is long |
| Pomodoro.StopResets | frontend/cerebro/src/components/Pomodoro.jsx:64-100 | stopping never posts from a break; it clears the seconds and the start time; a break returns to the work length |
| Pomodoro.Timer.constructor | frontend/cerebro/src/components/Pomodoro.jsx:13-19 | the timer starts at 25:00 in work mode |
| Pomodoro.Timer.SelectPreset | frontend/cerebro/src/components/Pomodoro.jsx:22-30 | a preset change resets the timer |
| Pomodoro.Timer.HandleStart | frontend/cerebro/src/components/Pomodoro.jsx:51-58 | the state becomes AfterStart |
| Pomodoro.Timer.HandlePause | frontend/cerebro/src/components/Pomodoro.jsx:60-62 | the state becomes AfterPause |
| Pomodoro.Timer.HandleStop | frontend/cerebro/src/components/Pomodoro.jsx:64-100 | posts the recorded work session, if any, and moves to the next period |
| Pomodoro.Timer.Tick | frontend/cerebro/src/components/Pomodoro.jsx:33-46 | counts down one second, or stops at 0:00 |
| Pomodoro.FourWorkPeriods | frontend/cerebro/src/components/Pomodoro.jsx:64-100 | four work periods, each started and stopped one second later, post four sessions, and the fourth gives the 15-minute long break |
| ClientClock.IsoStringRejected | frontend/cerebro/src/components/PomodoroTimer.jsx:85-86 | the 24-character `toISOString` text the timers send is never accepted by the backend's timestamp pattern |
| CoursePage.FormatLocalRoundTrip | frontend/cerebro/src/pages/CoursePage.jsx:8-16 | the page's local timestamp text is exactly the backend format and parses back to the same date-time |
| CoursePage.FormatTimeRoundTrip | frontend/cerebro/src/pages/CoursePage.jsx:77-81 | below 100 minutes the `MM:SS` display has five characters, and reading its digits gives back the timer |
| CoursePage.HandlersKeepValid | frontend/cerebro/src/pages/CoursePage.jsx:59-132 | every handler keeps the countdown within 0..1500 seconds and a start stamp whenever it runs |
| CoursePage.TickCountsDown | frontend/cerebro/src/pages/CoursePage.jsx:59-74 | a tick above 1 only decrements; at 1 it stops and records, resetting to 25:00 when a session was posted |
| CoursePage.ResumeOverwritesStamp | frontend/cerebro/src/pages/CoursePage.jsx:84-92 | every resume overwrites the start stamp with the current time |
| CoursePage.RecordWithoutSelection | frontend/cerebro/src/pages/CoursePage.jsx:95-119 | without a course, a topic or a start stamp, recording only stops the timer |
| CoursePage.RecordedInterval | frontend/cerebro/src/pages/CoursePage.jsx:95-119 | a recorded session ends now and starts (1500 − timer) seconds earlier; afterwards the timer is reset |
| CoursePage.ToggleTopicFlips | frontend/cerebro/src/pages/CoursePage.jsx:122-132 | toggling flips only that topic's completion, reports the new state, and toggling twice restores the state |
| CoursePage.Page.constructor | frontend/cerebro/src/pages/CoursePage.jsx:19-26 | the page starts with no selection at 25:00 |
| CoursePage.Page.HandleStartPause | frontend/cerebro/src/pages/CoursePage.jsx:84-92 | the state becomes AfterStartPause |
| CoursePage.Page.RecordSession | frontend/cerebro/src/pages/CoursePage.jsx:95-119 | the state and the posted session are those of AfterRecord |
| CoursePage.Page.Tick | frontend/cerebro/src/pages/CoursePage.jsx:59-74 | the state and the posted session are those of AfterTick |
| CoursePage.Page.SelectCourse | frontend/cerebro/src/pages/CoursePage.jsx:144-150 | choosing a course clears the topic |
| CoursePage.Page.SelectTopic | frontend/cerebro/src/pages/CoursePage.jsx:167-172 | sets the topic |
| CoursePage.Page.ToggleTopicComplete | frontend/cerebro/src/pages/CoursePage.jsx:122-132 | the state and the returned flag are those of AfterToggleTopic |
| CoursePage.FullCountdown | frontend/cerebro/src/pages/CoursePage.jsx:59-74 | as written, a full 25-minute countdown posts a 1499-second interval, which the backend stores as 24 minutes |
| CoursePage.FullCountdownCorrected | frontend/cerebro/src/pages/CoursePage.jsx:95-102 | when the final tick records with the timer at 0, the interval is 1500 seconds and 25 minutes |
| FlashcardsPage.DistinctTopicsExact | frontend/cerebro/src/pages/FlashcardsPage.jsx:59-65 | the topic list has no duplicates, holds exactly the cards' topics, and keeps first-occurrence order |
| FlashcardsPage.FilteredCardsExact | frontend/cerebro/src/pages/FlashcardsPage.jsx:101-129 | a card is shown iff it matches the trimmed, lower-cased term in question, answer or topic and the selected topic; order is kept |
| FlashcardsPage.BlankSearchShowsAll | frontend/cerebro/src/pages/FlashcardsPage.jsx:105-108 | a blank search with no topic shows every card |
| FlashcardsPage.CanSaveExact | frontend/cerebro/src/pages/FlashcardsPage.jsx:135-141 | a card can be saved iff question and answer are not blank; the topic does not matter |
| FlashcardsPage.Page.constructor | frontend/cerebro/src/pages/FlashcardsPage.jsx:15-33 | the page starts empty, outside study mode |
| FlashcardsPage.Page.FilterCards | frontend/cerebro/src/pages/FlashcardsPage.jsx:101-129 | the shown cards become FilteredCards and nothing else changes |
| FlashcardsPage.Page.SetCards | frontend/cerebro/src/pages/FlashcardsPage.jsx:77-97 | fetched cards replace the list, refresh the topics and re-filter |
| FlashcardsPage.Page.SetSearchTerm | frontend/cerebro/src/pages/FlashcardsPage.jsx:69-73 | a new term re-filters the cards |
| FlashcardsPage.Page.SetSelectedTopic | frontend/cerebro/src/pages/FlashcardsPage.jsx:69-73 | a new topic re-filters the cards |
| FlashcardsPage.Page.HandleCreate | frontend/cerebro/src/pages/FlashcardsPage.jsx:133-165 | posts the new card iff it can be saved; an accepted post clears the form and closes it |
| FlashcardsPage.Page.HandleUpdate | frontend/cerebro/src/pages/FlashcardsPage.jsx:197-229 | puts the edited card iff it can be saved; an accepted put ends editing |
| FlashcardsPage.Page.EditClick | frontend/cerebro/src/pages/FlashcardsPage.jsx:243-253 | starts editing a copy of the card and opens the form |
| FlashcardsPage.Page.StartStudyMode | frontend/cerebro/src/pages/FlashcardsPage.jsx:257-265 | enters study mode at the first card with the answer hidden; that index names a card whenever cards are shown |
| FlashcardsPage.Page.NextCard | frontend/cerebro/src/pages/FlashcardsPage.jsx:269-283 | moves to the next card, or leaves study mode after the last, and keeps the index in range |
| FlashcardsPage.Page.PrevCard | frontend/cerebro/src/pages/FlashcardsPage.jsx:287-297 | moves back one card (not before the first) and keeps the index in range |
| FlashcardViewer.Render | frontend/cerebro/src/components/FlashcardViewer.jsx:16-20 | a placeholder iff there are no cards; a card iff the index is in range, and then the indexed card |
| FlashcardViewer.NextIndex | frontend/cerebro/src/components/FlashcardViewer.jsx:14 | next index wraps from the last card to the first and stays in range |
| FlashcardViewer.Viewer.constructor | frontend/cerebro/src/components/FlashcardViewer.jsx:7-8 | the viewer starts with no cards at index 0 |
| FlashcardViewer.Viewer.NextCard | frontend/cerebro/src/components/FlashcardViewer.jsx:14 | the index becomes NextIndex |
| FlashcardViewer.Viewer.LoadSet | frontend/cerebro/src/components/FlashcardViewer.jsx:10-12 | as written, a change of set id replaces the cards with the refetched list and keeps the old index |
| FlashcardViewer.Viewer.LoadSetCorrected | frontend/cerebro/src/components/FlashcardViewer.jsx:10-12 | loading a set with the index reset to 0 never renders a missing card |
| FlashcardViewer.Viewer.View | frontend/cerebro/src/components/FlashcardViewer.jsx:16-20 | what is shown is Render of the cards and the index |
| FlashcardViewer.SwitchToSmallerSet | frontend/cerebro/src/components/FlashcardViewer.jsx:10-20 | as written, pressing Next twice in a three-card list and then refetching the list after one card was deleted renders a missing card |
| FlashcardViewer.SwitchToSmallerSetCorrected | frontend/cerebro/src/components/FlashcardViewer.jsx:10-20 | with the reset, the same steps show a card of the new set |
| InsightsPage.ReadMinutes | frontend/cerebro/src/pages/InsightsPage.jsx:119-131 | reading `<n>m` gives n minutes |
| InsightsPage.ReadHours | frontend/cerebro/src/pages/InsightsPage.jsx:119-131 | reading `<h>h` gives 60·h minutes |
| InsightsPage.ReadHoursMinutes | frontend/cerebro/src/pages/InsightsPage.jsx:119-131 | reading `<h>h <m>m` gives 60·h + m minutes |
| InsightsPage.FormatTimeRoundTrip | frontend/cerebro/src/pages/InsightsPage.jsx:119-131 | the minutes display reads back to the minutes it shows (a missing value reads as 0) |
| InsightsPage.ThresholdsMet | frontend/cerebro/src/pages/InsightsPage.jsx:135-147 | at most four thresholds are passed |
| InsightsPage.GradientColorByThresholds | frontend/cerebro/src/pages/InsightsPage.jsx:135-147 | the colour is chosen by how many of the 20/40/60/80 thresholds the percentage reaches, which grows with the percentage |
| InsightsPage.BestDayIsFirstMaximum | frontend/cerebro/src/pages/InsightsPage.jsx:105-111 | the best day has the largest total, is the first such entry, and is empty with 0 when every total is 0 |
| InsightsPage.TotalIsSum | frontend/cerebro/src/pages/InsightsPage.jsx:101-103 | the total is the sum with missing values counted as 0 |
| InsightsPage.WeeklyTotalOfSummary | frontend/cerebro/src/pages/InsightsPage.jsx:101 | the weekly total is the sum of the day buckets |
| InsightsPage.NonZeroCoursesExact | frontend/cerebro/src/pages/InsightsPage.jsx:99 | exactly the courses with positive completion are kept, in order |
| InsightsPage.StreakDotsShape | frontend/cerebro/src/pages/InsightsPage.jsx:203-213 | seven dots, min(streak, 7) of them filled, all filled dots first |
| InsightsPage.DayName | frontend/cerebro/src/pages/InsightsPage.jsx:151 | the short name is the day name's first three characters (or all of it when shorter) |
| InsightsPage.DayNamesStayDistinct | frontend/cerebro/src/pages/InsightsPage.jsx:151 | the seven short weekday names are pairwise distinct |
| ChallengesPage.RoundedPercentIsNearest | frontend/cerebro/src/pages/ChallengesPage.jsx:179-183 | the rounded percentage is the integer nearest 100·value/total, halves rounding up |
| ChallengesPage.RoundedPercentMonotone | frontend/cerebro/src/pages/ChallengesPage.jsx:179-183 | more progress never shows a smaller percentage |
| ChallengesPage.RoundedPercentAtLeast | frontend/cerebro/src/pages/ChallengesPage.jsx:179-183 | the percentage reaches k iff 200·value + total ≥ 2·total·k |
| ChallengesPage.PercentBounds | frontend/cerebro/src/pages/ChallengesPage.jsx:179-183 | the capped percentage lies in 0..100, grows with progress, is 100 iff 200·value ≥ 199·total, and is 0 without a positive target |
| ChallengesPage.BarColor | frontend/cerebro/src/pages/ChallengesPage.jsx:290-292 | the bar turns blue iff the percentage reaches 100 |
| ChallengesPage.GetProgressForIsFirst | frontend/cerebro/src/pages/ChallengesPage.jsx:48-49 | the progress found is the first entry for that challenge, and none iff no entry has that challenge |
| ChallengesPage.ShownWithoutProgress | frontend/cerebro/src/pages/ChallengesPage.jsx:179-183 | without progress the card shows 0 and 0 % |
| ChallengesPage.Prefill | frontend/cerebro/src/pages/ChallengesPage.jsx:261-271 | the edit form has exactly the form's fields, the challenge's type, and numbers defaulting to 0 |
| ChallengesPage.Form.constructor | frontend/cerebro/src/pages/ChallengesPage.jsx:9-18 | the form starts empty with no challenge being edited |
| ChallengesPage.Form.HandleInputChange | frontend/cerebro/src/pages/ChallengesPage.jsx:52-55 | updates only the named field |
| ChallengesPage.Form.ResetForm | frontend/cerebro/src/pages/ChallengesPage.jsx:58-67 | restores the empty form and keeps the challenge being edited |
| ChallengesPage.Form.StartEdit | frontend/cerebro/src/pages/ChallengesPage.jsx:261-271 | fills the form from the challenge and records its id |
| ChallengesPage.Form.HandleCreate | frontend/cerebro/src/pages/ChallengesPage.jsx:70-75 | posts the form as it was; resets it only when the post succeeded, and otherwise leaves it unchanged |
| ChallengesPage.Form.HandleUpdate | frontend/cerebro/src/pages/ChallengesPage.jsx:78-84 | puts the form under the id; only when the put succeeded does it reset the form and end editing |
| AiHistory.ToggleSelectedFlips | frontend/cerebro/src/pages/AiHistory.jsx:167-179 | toggling flips only that id's selection, keeps the list duplicate-free, and toggling twice restores the set |
| AiHistory.ToggleExpanded | frontend/cerebro/src/pages/AiHistory.jsx:159-163 | the item is expanded iff it was not; at most one item is expanded |
| AiHistory.MatchesSearchCases | frontend/cerebro/src/pages/AiHistory.jsx:267-279 | a prompt or answer containing the term (case-insensitive) matches, and so does the empty term |
| AiHistory.MatchAcrossJoin | frontend/cerebro/src/pages/AiHistory.jsx:267-279 | the search runs over prompt and answer joined with no separator, so a term spanning the join matches though neither contains it |
| AiHistory.SortProperties | frontend/cerebro/src/pages/AiHistory.jsx:321-329 | sorting orders by the chosen key, is a permutation, and is stable |
| AiHistory.FilteredHistoryExact | frontend/cerebro/src/pages/AiHistory.jsx:267-329 | exactly the items passing search and date appear, sorted by the chosen order |
| AiHistory.ExportDataExact | frontend/cerebro/src/pages/AiHistory.jsx:231-239 | the export is the selected items in history order, or the whole history when none is selected |
| AiHistory.AgeBounds | frontend/cerebro/src/pages/AiHistory.jsx:345-369 | the relative age label's count lies within its unit's bounds |
| AiHistory.Page.constructor | frontend/cerebro/src/pages/AiHistory.jsx:37-47 | the page starts with nothing selected or expanded |
| AiHistory.Page.ToggleSelectItem | frontend/cerebro/src/pages/AiHistory.jsx:167-179 | the selection becomes ToggleSelected |
| AiHistory.Page.ToggleExpand | frontend/cerebro/src/pages/AiHistory.jsx:159-163 | the expanded item becomes ToggleExpanded |
| AiHistory.Page.DeleteSelected | frontend/cerebro/src/pages/AiHistory.jsx:183-207 | a confirmed delete keeps the history (the source deletes nothing yet), clears the selection and announces how many were selected |
| AiHistory.Page.Stats | frontend/cerebro/src/pages/AiHistory.jsx:333-341 | counts total, filtered and selected items, and filtered never exceeds total |
| NoteForm.TagEditsKeepDistinct | frontend/cerebro/src/components/NoteForm.jsx:44-54 | adding an accepted tag keeps tags distinct; removing a tag drops exactly that tag |
| NoteForm.Form.constructor | frontend/cerebro/src/components/NoteForm.jsx:5-8 | the form starts empty |
| NoteForm.Form.Prefill | frontend/cerebro/src/components/NoteForm.jsx:11-21 | fills the fields from the edited note, or clears them |
| NoteForm.Form.HandleAddTag | frontend/cerebro/src/components/NoteForm.jsx:44-50 | adds the trimmed tag iff it is non-blank and new, and keeps tags distinct |
| NoteForm.Form.HandleRemoveTag | frontend/cerebro/src/components/NoteForm.jsx:52-54 | removes exactly that tag, keeping the others in order |
| NoteForm.Form.HandleSubmit | frontend/cerebro/src/components/NoteForm.jsx:23-86 | an empty title or content fails the `required` check and a blank title is refused: either way nothing is submitted and the fields are kept; otherwise submits the trimmed title and content with the tags and the edited note's id, and clears the fields |
| NoteForm.SubmitGate | frontend/cerebro/src/components/NoteForm.jsx:23-86 | a note is submitted iff its content is non-empty and its title has a non-space character; a title of spaces passes the `required` check and is refused by the handler |
| NoteForm.SubmittedTitleShape | frontend/cerebro/src/components/NoteForm.jsx:23-42 | a submitted title neither starts nor ends with whitespace |
| NoteCard.ContentPreview | frontend/cerebro/src/components/NoteCard.jsx:13-15 | short content is shown whole; longer content is its first 120 characters followed by three dots |
| NoteCard.DateLineOf | frontend/cerebro/src/components/NoteCard.jsx:41-45 | no date line iff neither date is present; an update date wins over the creation date |
| NotesPage.FilteredNotesExact | frontend/cerebro/src/pages/NotesPage.jsx:93-99 | a note is listed iff its title or content contains the lower-cased term; order is kept; a blank term lists all |
| NotesPage.SaveRequest | frontend/cerebro/src/pages/NotesPage.jsx:36-49 | a PUT to the note's id iff it has a non-zero id, otherwise a POST, carrying the note |
| NotesPage.Page.constructor | frontend/cerebro/src/pages/NotesPage.jsx:8-12 | the page starts with no note open |
| NotesPage.Page.CreateOrUpdate | frontend/cerebro/src/pages/NotesPage.jsx:36-49 | sends SaveRequest; on success closes the form and ends editing |
| NotesPage.Page.NewNote | frontend/cerebro/src/pages/NotesPage.jsx:67-71 | opens an empty form |
| NotesPage.Page.EditNote | frontend/cerebro/src/pages/NotesPage.jsx:74-78 | opens the form on that note |
| NotesPage.Page.ViewNote | frontend/cerebro/src/pages/NotesPage.jsx:81-85 | shows that note |
| NotesPage.Page.Close | frontend/cerebro/src/pages/NotesPage.jsx:148-152 | closes the viewed note |
| NotesPage.Page.SetNotes | frontend/cerebro/src/pages/NotesPage.jsx:26-33 | replaces the fetched notes only |
| CourseCreatePage.ReplaceAt | frontend/cerebro/src/pages/CourseCreatePage.jsx:12-16 | changes exactly the indexed topic |
| CourseCreatePage.RemoveAt | frontend/cerebro/src/pages/CourseCreatePage.jsx:22-25 | removes exactly the indexed topic, shifting the rest |
| CourseCreatePage.RowEditsUndo | frontend/cerebro/src/pages/CourseCreatePage.jsx:12-25 | removing an added row undoes the addition; removing a changed row equals removing the original |
| CourseCreatePage.NonBlankTopicsExact | frontend/cerebro/src/pages/CourseCreatePage.jsx:27-58 | exactly the non-blank topics are posted, in order; the initial single empty row holds no topic |
| CourseCreatePage.TopicPosts | frontend/cerebro/src/pages/CourseCreatePage.jsx:27-58 | one topic post per non-blank topic, in order, under the new course |
| CourseCreatePage.Page.constructor | frontend/cerebro/src/pages/CourseCreatePage.jsx:5-7 | the form starts with one empty topic row |
| CourseCreatePage.Page.HandleTopicChange | frontend/cerebro/src/pages/CourseCreatePage.jsx:12-16 | the topics become ReplaceAt |
| CourseCreatePage.Page.AddTopic | frontend/cerebro/src/pages/CourseCreatePage.jsx:18-20 | appends an empty row |
| CourseCreatePage.Page.RemoveTopic | frontend/cerebro/src/pages/CourseCreatePage.jsx:22-25 | removes the row only when more than one remains (the button is hidden otherwise) |
| CourseCreatePage.Page.HandleSubmit | frontend/cerebro/src/pages/CourseCreatePage.jsx:27-104 | an empty course name or topic row fails the `required` check: nothing is posted and nothing changes; otherwise posts the course, then the topic posts under the new id, and resets the form only when everything succeeded |
| CourseCreatePage.SubmitGate | frontend/cerebro/src/pages/CourseCreatePage.jsx:27-104 | a fresh form cannot be submitted; in a form that can be, the rows left out of the posts are exactly the non-empty rows of spaces |
| CourseCreationForm.FlatTopicPosts | frontend/cerebro/src/components/CourseCreationForm.jsx:19-45 | one flat topic post per non-blank topic, in order |
| CourseCreationForm.SameTopicsAsCreatePage | frontend/cerebro/src/components/CourseCreationForm.jsx:19-45 | the form posts the same topics in the same order as the creation page |
| CourseCreationForm.Form.constructor | frontend/cerebro/src/components/CourseCreationForm.jsx:5-7 | the form starts with one empty topic row |
| CourseCreationForm.Form.HandleAddTopic | frontend/cerebro/src/components/CourseCreationForm.jsx:9-11 | appends an empty row |
| CourseCreationForm.Form.HandleTopicChange | frontend/cerebro/src/components/CourseCreationForm.jsx:13-17 | changes exactly the indexed row |
| CourseCreationForm.Form.HandleSubmit | frontend/cerebro/src/components/CourseCreationForm.jsx:19-45 | posts the course and its flat topic posts; resets only on success |
| TasksPage.FindTask | frontend/cerebro/src/pages/TasksPage.jsx:22 | finds a task with the id, or none iff no task has it |
| TasksPage.ReplaceByIdEffect | frontend/cerebro/src/pages/TasksPage.jsx:27 | replacing by id keeps the length and every other task, is idempotent, and is undone by deletion |
| TasksPage.RemoveAfterReplace | frontend/cerebro/src/pages/TasksPage.jsx:27-32 | deleting after a replacement equals deleting directly |
| TasksPage.RemoveByIdExact | frontend/cerebro/src/pages/TasksPage.jsx:32 | deletion keeps exactly the tasks with other ids, in order |
| TasksPage.Page.constructor | frontend/cerebro/src/pages/TasksPage.jsx:6-7 | the page starts with no tasks |
| TasksPage.Page.CreateTask | frontend/cerebro/src/pages/TasksPage.jsx:14-19 | a blank title posts nothing; otherwise posts it, and only a successful post appends the reply and clears the title |
| TasksPage.Page.ToggleTask | frontend/cerebro/src/pages/TasksPage.jsx:21-28 | sends the task with its completion flipped; only a successful put replaces it by the reply |
| TasksPage.Page.DeleteTask | frontend/cerebro/src/pages/TasksPage.jsx:30-33 | only a successful delete removes the tasks with that id |
| HomePage.FilteredCoursesExact | frontend/cerebro/src/pages/HomePage.jsx:28-30 | exactly the courses whose lower-cased name contains the trimmed, lower-cased search, in order; a blank search shows all |
| DashboardLayout.ClickedItemIsActive | frontend/cerebro/src/layouts/DashboardLayout.jsx:39-91 | the menu item just clicked is highlighted as active |
| DashboardLayout.CoursesItemReturnsToLastCourse | frontend/cerebro/src/layouts/DashboardLayout.jsx:39-53 | after a course is opened from the home page, the Courses item navigates back to that course |
| DashboardLayout.TitleWithoutMatch | frontend/cerebro/src/layouts/DashboardLayout.jsx:127-135 | a path matching no rule is titled "Dashboard" |
| DashboardLayout.TitleAtFirstMatch | frontend/cerebro/src/layouts/DashboardLayout.jsx:127-135 | the title is the one of the first rule whose fragment the path contains |
| DashboardLayout.Layout.constructor | frontend/cerebro/src/layouts/DashboardLayout.jsx:34 | the sidebar starts closed |
| DashboardLayout.Layout.ToggleSidebar | frontend/cerebro/src/layouts/DashboardLayout.jsx:60 | the hamburger flips the sidebar |
| DashboardLayout.Layout.HandleMenuClick | frontend/cerebro/src/layouts/DashboardLayout.jsx:39-53 | navigates to the item's target, closes the sidebar, and the item is then active |
| PopularCourses.FilteredCoursesExact | frontend/cerebro/src/pages/PopularCourses.jsx:144-150 | a course is listed iff it is in the active category (or All) and its title, provider or description contains the query |
| PopularCourses.FeaturedCoursesExact | frontend/cerebro/src/pages/PopularCourses.jsx:153 | exactly the featured courses, in catalogue order |
| PopularCourses.FeaturedOnlyWithAllCourses | frontend/cerebro/src/pages/PopularCourses.jsx:203-249 | the featured strip shows only with no query in All; the heading is "Search Results" iff there is a query, else "All Courses" or "<category> Courses" |

## Left out

- Lower-casing covers ASCII A–Z only, and trimming uses a fixed set of whitespace characters. JavaScript's Unicode case and whitespace tables are not modelled.
- HTTP requests, toasts, navigation, `localStorage` and the React render and effect scheduling are not modelled. A request is a returned value; its reply is a parameter, and so is its success wherever the handler's later steps depend on it.
- Timer scheduling is not modelled. `setInterval` is a `Tick` method called once per second, and the asynchronous settle of a post is folded into the same step.
- Calendar conversion is not modelled: days are integer day numbers, and the weekday of a timestamp is computed from the start of the week. The AI history page's date filters are passed as bounds.
- StudySession.ParseLocal: does not trim the text first, and rejects a blank string. Jackson's date-time deserializer trims the text and reads a blank string as null. The model also accepts only four-digit years from 0001, and rejects hour 24. The clamping of a day past the end of its month is modelled.
- Overflow of Java `Long` sums is not modelled. The weekly summary's `int` sums do wrap.
- CoursePage reloading the topics when the course changes is an HTTP effect. Only the clearing of the topic is modelled.
- Floating-point percentages are `real` on the insights page and exact integer arithmetic on the challenges page, so rounding error is not modelled.
- Locale-dependent dates (`toLocaleDateString`, the absolute form on the AI history page) are not modelled: the note card keeps the raw date text.
- React StrictMode double effects are not modelled, and neither are cards whose question or answer is null.
- Notes whose title or content is null are not modelled: `NoteCard.ContentPreview` and `NotesPage.FilteredNotes` take the text as present. The source throws a TypeError on such a note.
- The page reload after a flashcard or note is created, updated or deleted is not modelled.
- The delete handlers of the flashcards, notes and challenges pages are a confirmation followed by an HTTP call, and are not modelled.
- The AI history notification timer is not modelled.
- The set filter of the flashcard viewer: `fetchCardsBySet` in api/flashcardApi.js:7 ignores its set id, so every load receives the whole card list. `FlashcardViewer.Viewer.LoadSet` takes that list as a parameter and says nothing about which set its cards belong to.
- JavaScript truthiness of ids is not modelled: PomodoroTimer.jsx:81 and Pomodoro.jsx:67 test `courseId && topicId`, and CoursePage.jsx:97 tests `!selectedCourseId || !selectedTopicId`, so an id of 0 counts as missing there, while the model treats `Some(0)` as a selection. This only matters for an id of 0, which the database never assigns.
- The flip of a single card component is left to `FlashcardViewer.View`: only which card is shown is modelled, not which side.
- JavaScript's `Array(n)` for a negative n is not modelled, because the streak is a natural number.
- PopularCourses' constant catalogue data is not modelled: the filters are proved for any catalogue.
- The dashboard layout's sidebar overlay and its `localStorage` read are not modelled. The last course is a parameter.
- The session service's `getAllSessions`, `getSession` and `deleteSession`, and the challenge service's `getAllChallenges` and `getProgressForUser`, are plain repository reads or deletes and are not modelled.
- ChallengeService.ChallengeStore.ApplyPass: the transaction's rollback is modelled by working on a copy that is committed only when the whole pass succeeds. Saves written to the database before the exception are therefore not visible in the model.
- ChallengeService.ChallengeStore.UpdateProgressFromSession: a failed update is reported as `false` rather than as an exception propagating to the session service.
- StudySessionService.Service.GetCurrentStreak: requires fewer than 2^31 dates, because the Java `int` counter would wrap past that and the model does not follow the wrap.
- HomePage.CourseClick carries no contract of its own. Its target is stated through DashboardLayout.CoursesItemReturnsToLastCourse.

## Findings

| source | as written | input that shows it | evidently intended | confidence | as-written member | corrected member |
|---|---|---|---|---|---|---|
| frontend/cerebro/src/pages/CoursePage.jsx:59-74 | the tick at 0:01 calls `recordSession`, whose closure still sees the timer at 1, so the posted interval is 1499 s | a full countdown started at t0 posts start t0+1 and end t0+1500, which the backend truncates to 24 minutes | a full countdown records 25 minutes | not executed | CoursePage.FullCountdown | CoursePage.FullCountdownCorrected |
| frontend/cerebro/src/components/PomodoroTimer.jsx:85-86 | both timers send `toISOString()` text, such as `2024-01-02T03:04:05.678Z` (24 characters) | any session posted by PomodoroTimer or Pomodoro | timestamps in the backend's `yyyy-MM-dd'T'HH:mm:ss` pattern, as CoursePage's `formatLocal` produces | not executed | ClientClock.IsoStringRejected | CoursePage.FormatLocalRoundTrip |
| frontend/cerebro/src/components/FlashcardViewer.jsx:10-12 | a change of set id refetches the card list and keeps the current index | with three cards, press Next twice; another page deletes one card; the set id changes and the refetched list has two cards: `cards[2]` is undefined | the index resets to 0 when the cards are reloaded | not executed | FlashcardViewer.SwitchToSmallerSet | FlashcardViewer.SwitchToSmallerSetCorrected |
