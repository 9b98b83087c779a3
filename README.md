# Daily priority agent: the scoring and bucketing engine

This project models the decision logic of the daily task-prioritisation agent in Dafny, and the stand-in agent of its web backend.

1. **Scoring.** Each task gets a score with an itemised breakdown:
   - urgency from the days left before its deadline, weighted 2.0;
   - importance from its impact, weighted 3.0;
   - a quick-win bonus of 1.0 for efforts of at most 15 minutes;
   - a blocked penalty of 5.0.

   Each task also gets a reason string: a comma-joined list of labels.
2. **Ranking.** The scored tasks are sorted by score descending, then effort ascending, then lower-cased title.
3. **Bucketing.** The plan is dealt into four buckets:
   - *Top*: the first three unblocked tasks;
   - *Next*: the five unblocked tasks after those;
   - *Unblock*: every blocked task, in rank order;
   - *Defer*: the later unblocked tasks that are low on both urgency and impact.

   Each bucket is serialised with its reasons, and the plan carries an assumptions block.
4. **Parsers and string built-ins.** The effort text parser and the blocked-flag parser are modelled, together with the Python string built-ins the core relies on: `parse_effort` uses `strip`, `upper`, `lower`, `replace` and `int`; `parse_bool` uses `strip` and `lower`; `reason` uses `join`; and `run_my_agent` uses `split` and `strip`.
5. **Backend stand-in.** `run_my_agent` splits the raw text at commas and makes one fixed record per piece.

Modules:

- `Text`: the Python string built-ins, over ASCII.
- `Scoring`: configuration, `Task`, the urgency curve, the score, the reason labels, and the effort and boolean parsers.
- `Ranking`: the sort key, its strict total order, and the stable sort.
- `Planner`: `build_plan` as a method with loops, proved against the bucket functions. The lemmas about those functions state the bucket policy.
- `Backend`: `run_my_agent`.

Modelling choices:

- Dates are whole day numbers, and "today" is a parameter wherever the source reads the clock.
- Scores are exact reals.
- Python's `list.sort` is a stable library sort. It is modelled as a stable insertion sort on sequences. The model proves that it returns a sorted permutation that keeps equal-key entries in their input order. It also proves that any list that is sorted by the key and stable is exactly this result, so the model agrees with any correct stable sort.

Three facts about the code that shape the model:

- **Configuration.** The configuration is module constants (`daily-priority-agent/agent.py:10-21`), and so is the model's.
- **Dropped tasks.** An unblocked task that ranks beyond the Top 3 + Next 5 window and is not deferrable lands in no bucket (`daily-priority-agent/agent.py:179-186`). `Planner.BucketsPartition` states this exactly: the four buckets plus those dropped entries make up the scored tasks.
- **Integer string limit.** `int()` refuses a decimal text of more than 4300 digits (`sys.int_info.default_max_str_digits`, in CPython 3.11, 3.10.7, 3.9.14, 3.8.14, 3.7.14 and later), and `parse_effort` then falls back to 45. The model follows these releases: `Text.MaxStrDigits` is that limit, and underscores do not count toward it.

## Model

| member | source | states |
|---|---|---|
| Scoring.DaysUntil | daily-priority-agent/agent.py:61-64 | no deadline gives no day count; otherwise today plus the count is the deadline |
| Scoring.UrgencyScore | daily-priority-agent/agent.py:67-83 | 0.5 exactly when there is no deadline; otherwise between 1 and 5; 5 exactly when the deadline is today or past |
| Scoring.UrgencyMonotone | daily-priority-agent/agent.py:67-83 | urgency never rises as the deadline moves further away |
| Scoring.UrgencyLowIffFar | daily-priority-agent/agent.py:67-83 | urgency is at most 1 exactly when there is no deadline or it is more than 7 days away |
| Scoring.QuickwinBonus | daily-priority-agent/agent.py:86-87 | the bonus is 1 exactly when effort is at most 15 minutes, and 0 exactly otherwise |
| Scoring.ComputeScore | daily-priority-agent/agent.py:90-105 | the breakdown's final score is the score; the score is 2·urgency + 3·importance + quickwin − penalty; each term is given by the deadline, impact, effort and blocked flag |
| Scoring.ScoreBounds | daily-priority-agent/agent.py:90-105 | for impact 1..3 the score lies in [−1, 20]; at most 15 when blocked; at least 4 when unblocked |
| Scoring.ScoreIsWholeHalves | daily-priority-agent/agent.py:199-201 | every score is a multiple of 0.5, so rounding to two decimals leaves it unchanged |
| Scoring.BlockedCostsPenalty | daily-priority-agent/agent.py:95-97 | blocking a task lowers its score by exactly the 5.0 penalty |
| Scoring.DueTodayQuickHighScore | daily-priority-agent/agent.py:90-105 | an unblocked, high-impact, 15-minute task due today gets breakdown (5, 3, 1, 0, 20) |
| Scoring.Reason | daily-priority-agent/agent.py:108-133 | the text is the ", "-join of the labels: the deadline label, then impact, then quick win, then blocked |
| Scoring.ReasonAgreesWithBreakdown | daily-priority-agent/agent.py:108-133 | each label appears exactly when the matching breakdown term has its value: Overdue only for a past deadline (urgency 5), Due soon ⇔ urgency 4 or 3, No deadline ⇔ 0.5, impact labels ⇔ importance, Quick win ⇔ bonus, Blocked ⇔ penalty |
| Scoring.ParseEffort | daily-priority-agent/agent.py:42-54 | the result is the minutes the text stands for (`EffortMinutes`): always at least 5; blank text gives 45; size letters, numerals and unparseable texts as `SizeLetterEffort`, `EffortRoundTrip` and `UnparseableEffort` state |
| Scoring.EffortPadded | daily-priority-agent/agent.py:43 | whitespace around an effort text does not change its minutes |
| Scoring.SizeLetterEffort | daily-priority-agent/agent.py:46-47 | a size letter S, M or L in either case gives 15, 45 or 90 |
| Scoring.EffortRoundTrip | daily-priority-agent/agent.py:48-54 | "n", "nm" and "nmin" all read back as max(5, n) when n has at most 4300 digits, and as 45 when it has more |
| Scoring.NumberEffort | daily-priority-agent/agent.py:50-54 | a number text gives at least 5 minutes |
| Scoring.UnparseableEffort | daily-priority-agent/agent.py:46-54 | a text that is not a size letter and holds a character that is not a digit, `_`, `+`, `-`, whitespace or m/i/n in either case gives the 45-minute fallback |
| Scoring.ParseBool | daily-priority-agent/agent.py:57-58 | true exactly when the stripped, lower-cased text is "yes", "true", "1" or "y": a blank flag is false, and a true flag is a stripped word of 1 to 4 characters starting with y, t or 1 in either case; `ParseBoolIgnoresCaseAndSpace` shows surrounding whitespace and letter case do not matter |
| Scoring.ParseBoolIgnoresCaseAndSpace | daily-priority-agent/agent.py:57-58 | surrounding whitespace and upper-casing do not change the parsed flag |
| Text.Strip | daily-priority-agent/agent.py:43 | the result is no longer than the text, only removes characters, and has no whitespace at either end |
| Text.StripTrimsSlice | daily-priority-agent/agent.py:43 | the result is the slice of the text left once only whitespace is cut from both ends |
| Text.StripKeeps | daily-priority-agent/agent.py:43 | every non-whitespace character of the text survives stripping |
| Text.StripPadded | daily-priority-agent/agent.py:43 | whitespace added around a text never changes its stripped form |
| Text.StripUpper | daily-priority-agent/agent.py:46 | stripping and upper-casing commute |
| Text.ParseDecimal | daily-priority-agent/agent.py:51 | `int()` of the decimal digits of n is n when there are at most 4300 of them, and is refused when there are more |
| Text.ParseDigitGroups | daily-priority-agent/agent.py:51 | `int()` accepts digit groups separated by single underscores and reads their value when they hold at most 4300 digits, and refuses them otherwise |
| Text.ParseIntRejects | daily-priority-agent/agent.py:51 | `int()` refuses a text holding a character that is not a digit, `_`, a sign or whitespace |
| Text.ReplaceKeeps | daily-priority-agent/agent.py:49 | a character foreign to the pattern survives `replace` |
| Ranking.KeyLessTotal | daily-priority-agent/agent.py:171 | any two distinct sort keys are ordered one way or the other |
| Ranking.KeyLessTransitive | daily-priority-agent/agent.py:171 | the key order is transitive |
| Ranking.KeyLessIrreflexive | daily-priority-agent/agent.py:171 | no key is smaller than itself |
| Ranking.SortByPriority | daily-priority-agent/agent.py:171 | the ranking is a permutation of the scored tasks, of the same length, and sorted by the key |
| Ranking.SortStable | daily-priority-agent/agent.py:171 | the entries of each key keep their input order |
| Ranking.StableSortIsUnique | daily-priority-agent/agent.py:171 | every sorted list that keeps each key's entries in input order equals this ranking |
| Ranking.SortedFieldOrder | daily-priority-agent/agent.py:170-171 | in the ranking, an earlier task has a score no lower; on equal scores, effort no higher; on equal effort too, a lower-cased title no greater |
| Planner.ScoreAll | daily-priority-agent/agent.py:165-168 | one scored entry per task, in input order, for that task |
| Planner.UnblockedOf | daily-priority-agent/agent.py:173 | keeps only unblocked entries of the ranking |
| Planner.BlockedOf | daily-priority-agent/agent.py:174 | keeps only blocked entries of the ranking |
| Planner.WindowSplit | daily-priority-agent/agent.py:176-181 | the `[:3]` and `[3:8]` slices together are the first min(8, n) entries and `[8:]` is the rest; the first has min(3, n) entries, the second at most 5 |
| Planner.DeferFrom | daily-priority-agent/agent.py:180-186 | keeps only deferrable entries of the remainder |
| Planner.Serialize | daily-priority-agent/agent.py:188-203 | the output is one item per entry, in order, carrying the fields of its task, the score, the reason and the breakdown |
| Planner.BuildPlan | daily-priority-agent/agent.py:164-219 | the plan is dated today and holds the four serialised buckets of the ranked tasks plus the assumptions block; Top has at most 3 items and Next at most 5; Top, Next and Defer hold only unblocked tasks and Unblock only blocked ones; Defer items have urgency ≤ 1 and impact ≤ 1 |
| Planner.BucketMembers | daily-priority-agent/agent.py:173-186 | bucket sizes and membership: blocked flags per bucket, and defer entries have urgency ≤ 1 and impact ≤ 1 |
| Planner.TopNextPrefix | daily-priority-agent/agent.py:176-177 | Top then Next is exactly the first min(8, n) unblocked tasks of the ranking; Top has min(3, n) |
| Planner.BucketsPartition | daily-priority-agent/agent.py:173-186 | the four buckets plus the dropped remainder make up the scored tasks exactly; Unblock holds every blocked task |
| Planner.BucketsDisjoint | daily-priority-agent/agent.py:173-186 | no task appears in two buckets, and the buckets hold at most as many entries as there are tasks |
| Planner.DeferIsLowPriorityRemainder | daily-priority-agent/agent.py:179-186 | Defer is the remainder's entries that are low on urgency and impact; every other remainder entry is not; deferrable ⇔ (no deadline or more than 7 days away) and impact ≤ 1 |
| Planner.UnblockedSorted | daily-priority-agent/agent.py:173-174 | splitting a sorted list by the blocked flag keeps both groups sorted |
| Planner.BucketsInRankOrder | daily-priority-agent/agent.py:171-186 | Top then Next, Unblock and Defer are each in rank order, and every Top or Next task ranks no lower than any deferred task |
| Planner.EmptyInputEmptyPlan | daily-priority-agent/agent.py:164-186 | no tasks give four empty buckets |
| Planner.AllBlockedPlan | daily-priority-agent/agent.py:173-186 | when every task is blocked, Top, Next and Defer are empty and Unblock is the whole ranking |
| Planner.LoneTaskOnTop | daily-priority-agent/agent.py:173-177 | a single unblocked task is the whole Top bucket and every other bucket is empty |
| Text.Split | backend/main.py:22 | splitting always gives at least one piece |
| Text.SplitCount | backend/main.py:22 | splitting at a comma gives one more piece than there are commas |
| Text.JoinSplit | backend/main.py:22 | joining the pieces with the separator gives the text back |
| Text.SplitJoin | backend/main.py:22 | splitting a join of separator-free pieces gives the pieces back |
| Backend.RecordOf | backend/main.py:26-31 | a title holds a comma only if its piece did; effort "medium", impact "high", no deadline |
| Backend.RecordsOf | backend/main.py:25-31 | one record per piece, in order, titled with the stripped piece, with the fixed fields |
| Backend.Records | backend/main.py:21-33 | one more record than commas in the text, and no title holds a comma |
| Backend.RecordEach | backend/main.py:25-31 | the loop's output is the records of the pieces |
| Backend.RunMyAgent | backend/main.py:21-33 | the reply is the records of the comma-split text: one more than there are commas, titles free of commas |
| Backend.TitlesRoundTrip | backend/main.py:21-33 | comma-free, already stripped titles joined by commas come back as the same titles, in order |

## Left out

- `read_tasks` is not modelled. It reads a CSV file, and the file I/O is out of scope; its two field parsers (`parse_effort`, `parse_bool`) are modelled.
- `parse_date` and the ISO date strings are not modelled. Dates are day numbers, so a deadline is serialised as its day number.
- `date.today()` becomes the `today` parameter. The source reads the clock separately in `days_until` (`agent.py:64`, reached from `compute_score`, from `reason` at line 111 and from the defer loop at line 182) and for `generated_on` (line 206). One `today` stands for every one of these reads, so a run that crosses midnight between two reads is not modelled.
- Python's `(s or "")` guard for a missing value is not modelled: a text argument here is always a string.
- `render_summary`, `main` and the JSON writer are not modelled. They are text formatting and output.
- Planner.Serialize: `round(x, 2)` on the score and the breakdown is not applied. `Scoring.ScoreIsWholeHalves` shows every score is a multiple of 0.5, and each breakdown term is one of 0, 0.5, 1..5 or the score, so rounding changes nothing.
- The score uses exact reals, not IEEE doubles. Every value involved is a small multiple of 0.5, which doubles represent exactly.
- The repeated `WEIGHTS` assignment at the end of `agent.py` (lines 268-273) is not modelled. It sits inside the `__main__` block, runs only after `main` has returned, and assigns the same values.
- The `AVAILABLE_MIN` constant (`agent.py:275`) is not modelled. It is a module-level assignment that runs on import, but no code reads it.
- Scoring.Reason: the breakdown argument is accepted and ignored, as in the source.
- Text.Strip: `strip`, `lower`, `upper` and `int` are modelled over ASCII only. Non-ASCII whitespace, case mappings and digits are not.
- Text.ParseInt: the 4300-digit limit of CPython 3.11, 3.10.7, 3.9.14, 3.8.14, 3.7.14 and later is modelled; only earlier releases have no limit, and on them an overlong numeral would be read instead of falling back to 45.
- Text.ParseInt: its own trim uses `str.strip()`'s whitespace, which includes the separators 28..31 that `int()` itself does not skip. `parse_effort` strips its text before calling `int()` (`agent.py:49`), so the two agree on every text the model passes to `ParseInt`; on a raw text that starts or ends with 28..31 the model reads a number where `int()` refuses it.
- Ranking.SortByPriority: Python's Timsort is replaced by a stable insertion sort. `Ranking.StableSortIsUnique` shows any stable sort by this key gives the same list.
- Backend.RecordEach: the loop of `run_my_agent` sits in its own method, called right after the split. This keeps each proof small; the loop body is unchanged.
- backend/agent.py (the language-model parser) is not part of this model. It calls an external service.
- The FastAPI routes, the CORS set-up and the frontend are not part of this model. They are request plumbing and user interface.
