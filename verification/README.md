# LambdaForge: a verified model of scheduling, study read models, analysis and the live monitor

This project models, in Dafny, the parts of LambdaForge whose behaviour spans several
functions or a whole run, and proves what they keep:

- **Scheduling** (`Scheduling.dfy`): the discrete-event simulation that compares one run per GPU
  with an adaptive planner. The planner is any function from queue, resident runs and clock to a
  set of keys; only what it admits matters.
- **Study read models** (`Paging.dfy`, `SectionCache.dfy`, `StudyProjection.dfy`): a stateless
  server pages a file out by byte ranges while a writer renames or rewrites it between any two
  system calls; the report-section cache on top of it; and the two projections of telemetry.
- **Metric semantics** (`MetricCatalog.dfy`, `Families.dfy`): lineage searches that carry their
  path, the guard against test evidence, dimensional families, templates and aliases.
- **Statistical kernels** (`GroupVariance.dfy`, `Spearman.dfy`, `MixedDistance.dfy`,
  `Coverage.dfy`, `ResearchAnalysis.dfy`, `Hypotheses.dfy`).
- **Study evidence and conclusions** (`Evidence.dfy`, `Sweep.dfy`, `Pareto.dfy`).
- **Live monitor** (`Monitor.dfy`, `BackgroundProcess.dfy`): the control state of the event loop
  over all sequences of keys and worker results, and the worker object it owns.
- `Sums.dfy`, `Sorting.dfy`, `Grouping.dfy` and `Options.dfy` hold what these share: finite sums,
  the Cauchy-Schwarz inequality, stable sorting, and grouping by label.

How the model relates to the code:

- Floats are exact reals. `math.log` is any strictly increasing function, a square root is any
  non-negative value with the right square, and random draws, worker results, clocks and due
  timers are inputs that may be anything.
- Code that fills lists, dictionaries or records in loops is a method with loop invariants,
  proved against a specification function or predicate; lemmas then say what that specification
  means. Expressions and comprehensions are functions. `Record` and `Worker` are classes because
  the original updates those objects in place.
- The monitor's loop variables are one `State` value that `Monitor.Run` reassigns turn by turn;
  each branch of the loop body is a function on it.
- Exceptions are values: `NoProgress`, `Raised`, `Mismatch`, a refused family.

Results where the code does not do what one might expect of it, each with a concrete input and
the exact condition under which it does:

- The report-section cache can hand out pages of two generations under one fingerprint when a
  summary is replaced between its stat and a rebuild (`GenerationsCanMix`, `FinishedReadIff`).
- The guard that keeps test metrics out of objectives resolves declared names and objectives
  only. A pattern default may derive an objective from a metric nobody declared, and the guard
  then accepts it (`UndeclaredLineageEscapes`, `CleanForeverIsDecided`).
- Candidates supplied directly may repeat a trial id; the required-cell account then counts a
  cell twice (`RepeatedTrialsMiscount`, `Account`).
- Family membership compares values and family identity compares JSON texts, so a member may be
  listed at 1.0 beside a template over 1 (`SpelledOtherwise`, `TemplateIsBijection`).
- In the monitor's Work view the selected attempt is also clamped to the job list of the selected
  cluster, so attempts beyond that list cannot be selected (`AttemptOutOfReach`,
  `AttemptsStayInReach`, `DownReaches`). A cancel requested from a study view goes by position: it
  names another Work than the one opened when a snapshot has reordered the list, and a raw Job
  with the scope of a Work when the last Work has disappeared (`StudyCancelStrays`, `StudyCancels`).

## Model

| member | source | states |
|---|---|---|
| `Scheduling.EventLoop` | benchmarks/resource_scheduling.py:228-290 | The returned events are a schedule of the policy: at each event a queued run starts if and only if the planner names its key, or the policy is fixed, the device idle and the run heads the queue; the clock then moves to the first finish, what has finished leaves, and the recorded start of a run is the clock of the event that starts it. The loop gives up exactly at an event that neither holds nor starts a run, never under the fixed policy or a planner that does not leave the device idle while runs are queued. At its normal end the active area is the makespan, the memory area is the sum of peak times duration, the blocked area is the sum of start times, and every run started and completed exactly once, none before 0 or after the makespan. The makespan lies between the longest duration and the total work, is exactly the total work for the fixed policy, and is at least a quarter of it when admissions fit the device. |
| `Scheduling.FittingPlannerExists` | benchmarks/resource_scheduling.py:250-269 | Some planner both keeps within slots and memory and never leaves the device idle, so that every clause about the loop applies to it, if and only if every run of the workload fits the device alone. |
| `Scheduling.AdmissionConserves` | benchmarks/resource_scheduling.py:270-275 | Admission, whatever it selects, keeps the partition of the workload and all three integral laws. |
| `Scheduling.AdvanceConserves` | benchmarks/resource_scheduling.py:278-290 | Moving the clock to the next completion, with the three gains the code adds, keeps them too. |
| `Scheduling.EventProgress` | benchmarks/resource_scheduling.py:239-290 | Queue length plus resident runs strictly drops at every event. |
| `Scheduling.Admit` | benchmarks/resource_scheduling.py:270-275 | The removal loop over a copy of the queue leaves the unselected runs in order and appends the selected ones in queue order, stamping each once. |
| `Scheduling.Retire` | benchmarks/resource_scheduling.py:284-290 | Runs whose finish time is reached move, in order, to the completed list; the others stay. |
| `Scheduling.HeavyWait` | benchmarks/resource_scheduling.py:291-294 | The latest start of a run of 40 GiB or more, 0 without one. |
| `Scheduling.Simulate` | benchmarks/resource_scheduling.py:228-309 | The report is of the schedule that was run: makespan, blocked seconds and heavy wait are read off its starts, which keep the timing bounds; the reported fractions multiply back to the quantities of the workload, and VRAM utilisation is at most 1 when admissions fit. |
| `Scheduling.CompareStaticAndDynamic` | benchmarks/resource_scheduling.py:69-82 | On every workload of distinct keys an adaptive planner that finishes has no longer makespan, no lower VRAM utilisation and no lower throughput than one run at a time. |
| `Paging.RunKeepsInv` | src/lambdaforge/study_projection.py:457-507 | Every interleaving of writer steps with the server's stat, open, fstat, reads and fstat, and the client's replies, keeps: what the client holds is a prefix of one published generation. |
| `Paging.ReadsAreSnapshots` | src/lambdaforge/study_projection.py:769-794 | A read that returns a value returns exactly what the file contained at one moment of that read, and none of the client's consistency checks ever fails. |
| `Paging.QuietReadsFinish` | src/lambdaforge/controlplane/JobService.py:1198-1272 | Without a writer every run of the client of at least 5 size + 5 steps ends with the file's bytes, in no page if the cached value is current and in max(1, ceil(size / 512 KiB)) pages otherwise. |
| `Paging.FewWritesNeverSpoil` | src/lambdaforge/controlplane/JobService.py:1198-1240 | From the beginning of a read, any run with fewer than three renames or rewrites does not end with the read given up. |
| `Paging.ThreeWritesSpoil` | src/lambdaforge/controlplane/JobService.py:1198-1240 | Three can: with nothing cached, a rename between the stat and the open of each of the three attempts ends the read given up. |
| `Paging.ReadsEnd` | src/lambdaforge/controlplane/JobService.py:1198-1272 | When the writer falls silent after fewer than three writes, every run of enough further steps ends the read: with the file now at the path, except exactly when at that moment the last page of a replaced but still intact file is being served, and then with that file. |
| `Paging.WriterKeepsInv` | src/lambdaforge/study_projection.py:776-787 | A rename or rewrite at any point keeps the invariant: it changes the open file only together with its stamp. |
| `SectionCache.FreshRebuildsGiveSnapshots` | src/lambdaforge/study_projection.py:614-647 | While every rebuild finds the summary it was stat-ed with, a finished read is the encoding of one generation even if another was published before its last page. |
| `SectionCache.FinishedReadIff` | src/lambdaforge/study_projection.py:614-647 | After any events whatever, other readers' stale rebuilds included, a page that finishes the read gives the encoding of the generation its stat found if and only if the cache it is served from, rebuilt or not, holds the rest of that encoding from the reader's offset on; it stops the read if and only if the cache is shorter than that offset. |
| `SectionCache.UnpublishedReadsAreRight` | src/lambdaforge/study_projection.py:614-647 | So a read is right whenever no summary was published between its last stat and its last page. |
| `SectionCache.RoundsFinish` | src/lambdaforge/study_projection.py:776-794 | Whatever happened before, a read that begins while nothing more is published finishes with the current encoding after exactly max(1, ceil(size / 512 KiB)) rounds of stat and page, and holds whole pages of it until then. |
| `SectionCache.GenerationsCanMix` | src/lambdaforge/study_projection.py:491-494 | A concrete interleaving of two readers and one replacement after which a finished read is no generation's encoding. |
| `StudyProjection.StudyTable` | src/lambdaforge/study_projection.py:180-268 | The single pass with row list, state counter and leader variable computes the table of the document. Read against the document: each mapping candidate has a row of its own row fields, with the number of its runs, their greatest step and the ascending devices of the running ones; run states count every run by state; the leader parameters are those of the first candidate with the least score when the mode reads "min", with the greatest otherwise; without runs, scores or parameters the recorded entry stands; every other field is the recorded one. |
| `StudyProjection.TableRaises` | src/lambdaforge/study_projection.py:180-268 | The table raises if and only if the objective is truthy and no object, the candidates do not iterate, or some candidate has runs that do not iterate, a step that is no integer or a running run whose device is none. |
| `StudyProjection.TableIsStable` | src/lambdaforge/study_projection.py:180-268 | The trial table of a trial table is that table. |
| `StudyProjection.InteractiveIsStable` | src/lambdaforge/study_projection.py:72-167 | The interactive projection is idempotent and leaves every trial table as it is. |
| `StudyProjection.TableOfIndex` | src/lambdaforge/study_projection.py:72-268 | On raw telemetry whose candidates carry runs, tabulating the interactive index gives the table of the telemetry: it raises when that raises, rows differ in best seed and best step only, and run-state counts, leader parameters and every other recorded field agree. |
| `StudyProjection.LeaderIsFirst` | src/lambdaforge/study_projection.py:246-256 | The leader variable ends at the first candidate with the least score, or with the greatest when maximising, and is unset exactly when none is scored. |
| `StudyProjection.GpuIndicesExact` | src/lambdaforge/study_projection.py:180-268 | The device list is strictly increasing and holds exactly the devices of running runs. |
| `MetricCatalog.SplitOverride` | src/lambdaforge/analysis/MetricCatalog.py:381-430 | The split of a metric is the declared one, else that of the last matching pattern that sets one, else the prefix's. |
| `MetricCatalog.LineageOverride` | src/lambdaforge/analysis/MetricCatalog.py:381-430 | The lineage of a metric is the declared one, else that of the last matching pattern that sets one, else empty. |
| `MetricCatalog.PrefixDecides` | src/lambdaforge/analysis/MetricCatalog.py:383-396 | The four prefixes exclude one another: each decides the split of every name that begins with it, and other names have none. |
| `MetricCatalog.SearchIsExact` | src/lambdaforge/analysis/MetricCatalog.py:451-458 | On every catalogue, cyclic ones included, the path-carrying search is true if and only if some lineage path leads to a test metric. |
| `MetricCatalog.PathIsFound` | src/lambdaforge/analysis/MetricCatalog.py:353-361 | Refusing names already on the path loses nothing: any lineage path avoiding them is found. |
| `MetricCatalog.AcceptedIffRanked` | src/lambdaforge/analysis/MetricCatalog.py:239-248 | The declared lineage is accepted if and only if it is closed and has a topological rank. |
| `MetricCatalog.Resolve` | src/lambdaforge/analysis/MetricCatalog.py:377-461 | Every catalogued metric is flagged if and only if a lineage path leads from it to test evidence. |
| `MetricCatalog.MayGovern` | src/lambdaforge/analysis/MetricCatalog.py:347-367 | Objective and constraints are accepted if and only if none is derived from a test metric in the catalogue of the check. |
| `MetricCatalog.AcceptedStaysClean` | src/lambdaforge/analysis/MetricCatalog.py:347-367 | If the metrics that objective and constraints stand for are closed under resolved lineage, together with the declared ones, then each of them, named directly or through an alias, carries no test evidence in any later catalogue. |
| `MetricCatalog.CleanForeverIff` | src/lambdaforge/analysis/MetricCatalog.py:377-461 | A metric stays clean in every later catalogue if and only if the search over any lineage-closed set of names containing it is false. |
| `MetricCatalog.CleanForeverIsDecided` | src/lambdaforge/analysis/MetricCatalog.py:377-461 | Such a set exists for every name, so one search decides, for every objective, whether any later catalogue can bring it test evidence. |
| `MetricCatalog.UndeclaredLineageEscapes` | src/lambdaforge/analysis/MetricCatalog.py:351-367 | A concrete accepted objective, whose lineage is not closed, that reaches test evidence once an undeclared metric is observed. |
| `Families.GridExact` | src/lambdaforge/analysis/MetricCatalog.py:206-207 | The product of the dimensions holds exactly the coordinates with one listed value per dimension. |
| `Families.FitsIffLikeGrid` | src/lambdaforge/analysis/MetricCatalog.py:216-223 | The coordinate of a member is accepted if and only if it agrees by value, dimension by dimension, with a coordinate of the grid. |
| `Families.Sameness` | src/lambdaforge/analysis/MetricCatalog.py:219-221 | Agreement by value is an equivalence under which 1, 1.0 and true are one value and a number is no text. |
| `Families.ValidIsLegal` | src/lambdaforge/analysis/MetricCatalog.py:177-191 | The check of dimensions, which counts distinct values, accepts exactly those of a known kind with at least one value, none twice, and only numbers when numeric. |
| `Families.TemplateIsBijection` | src/lambdaforge/analysis/MetricCatalog.py:194-228 | The names an accepted template adds are in bijection with the whole grid; members listed beside it are kept, and there are none if and only if each of them is spelled as the dimensions spell their values. |
| `Families.SpelledOtherwise` | src/lambdaforge/analysis/MetricCatalog.py:216-224 | A concrete accepted family in which a listed member at 1.0 and a formatted one at 1 hold the one place of the grid. |
| `Families.TemplateRefused` | src/lambdaforge/analysis/MetricCatalog.py:194-214 | A template is refused if and only if it holds more than bare placeholders, has no dimension, more than 4096 coordinates, or a coordinate that cannot be formatted, gives a listed name or the name of another one. |
| `Families.ExpandTemplate` | src/lambdaforge/analysis/MetricCatalog.py:194-214 | The loop over the grid adds every formatted name, and refuses a failing format, a repeated name, an empty or oversized grid. |
| `Families.PlaceMembers` | src/lambdaforge/analysis/MetricCatalog.py:216-228 | Members are accepted if and only if each coordinate equals listed values, no two coordinates have one JSON text, and no other family owns any of them. |
| `Families.ResolveFamilies` | src/lambdaforge/analysis/MetricCatalog.py:172-229 | All families are accepted if and only if each is legal and no metric is in two; then every member is owned by its one family. |
| `Families.ResolveAliases` | src/lambdaforge/analysis/MetricCatalog.py:230-237 | Aliases are accepted if and only if none is a metric name and none is declared twice. |
| `Families.CanonicalIsIdempotent` | src/lambdaforge/analysis/MetricCatalog.py:230-237 | Canonicalisation is single-valued and idempotent, and ends at the metric that declares the alias. |
| `GroupVariance.GroupVariance` | src/lambdaforge/analysis/Effects.py:522-527 | The dictionary of lists and the list of group means give a variance between 0 and the population variance of the values. |
| `GroupVariance.MeansSpreadLess` | src/lambdaforge/analysis/Effects.py:522-527 | Around any constant, group means have no more squared deviation than the values they average. |
| `GroupVariance.ExplainedBounds` | src/lambdaforge/analysis/Effects.py:522-527 | Law of total variance: no grouping explains more than the whole variance. |
| `GroupVariance.FinerExplainsMore` | src/lambdaforge/analysis/Effects.py:196-199 | A grouping that refines another explains at least as much. |
| `GroupVariance.ImportancesAreFractions` | src/lambdaforge/analysis/Effects.py:158-212 | The zipped pair grouping explains at least as much as either parameter, and every main-effect and interaction importance lies in [0, 1]. |
| `Grouping.GroupedGrows` | src/lambdaforge/analysis/Effects.py:523-525 | Filing one more entry under its label keeps: the dictionary holds, per label met, exactly that label's entries in order. |
| `Spearman.Ranks` | src/lambdaforge/analysis/Effects.py:577-583 | Sorting pairs and writing ranks by position gives each value one more than the number of pairs before it. |
| `Spearman.RanksPermute` | src/lambdaforge/analysis/Effects.py:577-583 | The ranks are a permutation of 1..n. |
| `Spearman.RanksFollowOrder` | src/lambdaforge/analysis/Effects.py:577-583 | One rank is smaller than another if and only if the value is smaller, or equal and earlier. |
| `Spearman.Correlate` | src/lambdaforge/analysis/Effects.py:562-574 | For every square root the coefficient equals the textbook one, so the zero-denominator branch is never taken; it lies in [-1, 1], is absent below two values, and lists of different length are an error. |
| `Spearman.ClassicFormula` | src/lambdaforge/analysis/Effects.py:562-574 | That coefficient is 1 - 6 sum d^2 / (n (n^2 - 1)). |
| `Spearman.CrossTerm` | src/lambdaforge/analysis/Effects.py:567-573 | Both centred rank lists have scatter n (n^2 - 1) / 12, and their inner product is that minus half the squared rank differences. |
| `Spearman.PerfectIffSameRanks` | src/lambdaforge/analysis/Effects.py:562-574 | The coefficient is 1 if and only if both metrics rank every candidate alike. |
| `MixedDistance.Distance` | src/lambdaforge/analysis/Effects.py:485-507 | The loop over linear, logarithmic, categorical and inactive parameters returns the root mean square of the per-parameter gaps, 0 for an empty space. |
| `MixedDistance.DistanceIsBounded` | src/lambdaforge/analysis/Effects.py:485-507 | For configurations in the domain the distance lies in [0, 1]. |
| `MixedDistance.DistanceIsSymmetric` | src/lambdaforge/analysis/Effects.py:485-507 | It does not depend on the order of the two configurations. |
| `MixedDistance.ZeroDistance` | src/lambdaforge/analysis/Effects.py:485-507 | It is 0 if and only if the configurations agree on every parameter of the space. |
| `MixedDistance.TriangleInequality` | src/lambdaforge/analysis/Effects.py:485-507 | It satisfies the triangle inequality. |
| `MixedDistance.RmsUnique` | src/lambdaforge/analysis/Effects.py:507 | A list of gaps has one root mean square, so the statements above are about the returned value. |
| `Coverage.ClosestIsAntitone` | src/lambdaforge/analysis/Coverage.py:215-222 | More observed configurations never bring a larger nearest distance. |
| `Coverage.ObservedExactly` | src/lambdaforge/analysis/Coverage.py:33-40 | Observed are the configurations of the valid candidates in order, at full fidelity those of the scored ones among them. |
| `Coverage.ClosestIsLipschitz` | src/lambdaforge/analysis/Coverage.py:215-222 | For a pseudo-metric on a domain the nearest distance moves no faster than the configuration, and is 0 at observed ones. |
| `Coverage.MixedIsPseudoMetric` | src/lambdaforge/analysis/Effects.py:485-507 | The distance of a mixed search space is one on the configurations of that space. |
| `Coverage.OrderStatistics` | src/lambdaforge/analysis/Coverage.py:239-245 | Lists that are ordered pointwise are ordered at every position after sorting. |
| `Coverage.SummaryMeans` | src/lambdaforge/analysis/Coverage.py:239-245 | By counting: the maximum is the least number that no value exceeds, the 90th percentile the least one that more than floor(0.9 (n - 1)) values do not exceed, and the median the mean of the two middle ones. |
| `Coverage.AttemptedCoversMore` | src/lambdaforge/analysis/Coverage.py:33-65 | With any scored configuration, the attempted median, 90th percentile and maximum are at most the full-fidelity ones. |
| `Coverage.MissingExactly` | src/lambdaforge/analysis/Coverage.py:215-245 | A summary is missing if and only if nothing was observed or the reference set is empty. |
| `Coverage.GradeIsMonotone` | src/lambdaforge/analysis/Coverage.py:55-66 | Against the same baseline designs a smaller median never lowers the percentile or the grade. |
| `Coverage.GradeMeans` | src/lambdaforge/analysis/Coverage.py:248-255 | Coverage is good if and only if at least 67 in 100 baseline designs have no smaller median and the median is at most 0.3, and poor if and only if fewer than 33 in 100 have or it exceeds 0.5. |
| `ResearchAnalysis.Adjust` | src/lambdaforge/analysis/ResearchAnalysis.py:81-88 | The reversed loop with a falling bound writes into every record its Benjamini-Yekutieli value: the least step-up value of a p-value not below its own, at most 1. |
| `ResearchAnalysis.AdjustedIsMonotone` | src/lambdaforge/analysis/ResearchAnalysis.py:81-88 | A larger p-value never has a smaller adjusted value; equal ones have equal values. |
| `ResearchAnalysis.AdjustedIsAbove` | src/lambdaforge/analysis/ResearchAnalysis.py:81-88 | The adjusted value is never below the p-value. |
| `ResearchAnalysis.StepUpRejections` | src/lambdaforge/analysis/ResearchAnalysis.py:81-88 | Thresholding at any level below 1 gives the step-up rejection set. |
| `ResearchAnalysis.AdjustedAsPadded` | src/lambdaforge/analysis/ResearchAnalysis.py:81-88 | Adjusting the listed p-values with a larger total is adjusting all of them with the others at p = 1. |
| `ResearchAnalysis.LoneHypothesis` | src/lambdaforge/analysis/ResearchAnalysis.py:81-88 | A single hypothesis keeps its p-value, at most 1. |
| `ResearchAnalysis.SuffixIsAdjusted` | src/lambdaforge/analysis/ResearchAnalysis.py:84-88 | The suffix minimum over ranked records is the adjusted value, whatever order ties were ranked in. |
| `ResearchAnalysis.Redundancy` | src/lambdaforge/analysis/ResearchAnalysis.py:496-532 | Groups are pairwise disjoint and without family metrics, members are redundant with their representative, and no two kept metrics are redundant with each other. |
| `ResearchAnalysis.RedundantMeans` | src/lambdaforge/analysis/ResearchAnalysis.py:509-518 | Two metrics are redundant if and only if at least six candidates report both and the correlation of the average ranks over those candidates exists and is at least 0.995 in size. |
| `ResearchAnalysis.RanksAreMiddles` | src/lambdaforge/analysis/ResearchAnalysis.py:69-72 | The average rank of a value is the middle of the positions at which it stands in any sorted arrangement. |
| `ResearchAnalysis.RedundancyIsSymmetric` | src/lambdaforge/analysis/ResearchAnalysis.py:509-517 | Redundancy of two metrics does not depend on their order. |
| `Hypotheses.Collect` | src/lambdaforge/analysis/ResearchAnalysis.py:184-242 | Hypotheses are the configured ones, first, always and in the order of their first occurrence, and those met in the first n places of the interleaving, once each; the scan never overfills the budget, and when the budget is not full every automatic pair is among them. |
| `Hypotheses.FairShare` | src/lambdaforge/analysis/ResearchAnalysis.py:225-242 | An automatic pair of one kind is taken only after every earlier pair of the other kind. |
| `Hypotheses.BudgetCoversTests` | src/lambdaforge/analysis/ResearchAnalysis.py:243-276 | Measured are exactly the hypotheses within the budget that yield a record and, in a study that is not final, touch no test evidence. They never outnumber the total given to the adjustment, which is everything within the budget, so unmeasured ones count as p = 1. |
| `Evidence.GroupRuns` | src/lambdaforge/analysis/Evidence.py:33-49 | Candidates come by strictly ascending trial, each holding exactly its runs in order; no run is lost or repeated. |
| `Evidence.RequiredByCandidate` | src/lambdaforge/analysis/StudyAnalysis.py:379-390 | The dictionary of required seeds holds exactly the cells the design asks for, and no empty entry. |
| `Evidence.TallyCountsCells` | src/lambdaforge/analysis/StudyAnalysis.py:161-184 | For any candidates the sum of required seeds reached is at least the number of required cells reached, and equal to it if and only if no required cell is reached by two listed candidates. |
| `Evidence.Account` | src/lambdaforge/analysis/StudyAnalysis.py:160-241 | Attempted and completed are the sums over the listed candidates, the fraction and the design status follow from them, and each required cell is counted in exactly one of completed, censored and missing if and only if no two listed candidates attempted the same required cell. |
| `Evidence.AllCompleteIff` | src/lambdaforge/analysis/StudyAnalysis.py:149-160 | With distinct trials, all required cells are completed if and only if the candidates with complete evidence are as many as the required candidates, and never are there more. |
| `Evidence.AccountOfRuns` | src/lambdaforge/analysis/StudyAnalysis.py:160-241 | Runs grouped by trial always give an account that adds up. |
| `Evidence.RepeatedTrialsMiscount` | src/lambdaforge/analysis/StudyAnalysis.py:161-241 | The account of two supplied candidates with one trial id and one completed cell: a completion fraction of 2 in a design that is not complete. |
| `Sweep.Resample` | src/lambdaforge/analysis/StudyAnalysis.py:572-610 | Every seed lookup of a draw from the common seeds is defined; winner counts exist for exactly the trials, and both tallies count the outcomes of the draws. |
| `Sweep.TokenMeaning` | src/lambdaforge/analysis/StudyAnalysis.py:584-610 | With a practical margin a resample counts as a tie exactly when every trial is near the best, as a preference only for a winner that alone is near it, and otherwise as the ascending list of exactly the trials near the best. |
| `Sweep.PreferredExactly` | src/lambdaforge/analysis/StudyAnalysis.py:584-597 | With a practical margin a resample is a preference if and only if there are several trials and the winner alone is near the best. |
| `Sweep.PlainToken` | src/lambdaforge/analysis/StudyAnalysis.py:601-610 | Without a margin a resample is unresolved if and only if the runner-up is close to the winner, and otherwise prefers the winner. |
| `Sweep.WinnerIsBest` | src/lambdaforge/analysis/StudyAnalysis.py:574-583 | The winner of a resample has the greatest mean when the mode is "max" and the least otherwise, and the greatest trial id among equals. |
| `Sweep.TotalsAreResamples` | src/lambdaforge/analysis/StudyAnalysis.py:572-619 | Winner counts over the trials and conclusion counts over the distribution each total the number of resamples. |
| `Sweep.Conclude` | src/lambdaforge/analysis/StudyAnalysis.py:611-640 | A conclusion other than UNRESOLVED is drawn if and only if its outcome holds in a strict majority of resamples; the confidence is the fraction of resamples with that outcome. |
| `Sweep.ConclusionIsUnique` | src/lambdaforge/analysis/StudyAnalysis.py:611-640 | The counts determine the conclusion whatever order the distribution is read in. |
| `Sweep.PreferredWonMajority` | src/lambdaforge/analysis/StudyAnalysis.py:582-640 | A concluded preference names a trial that won more than half of the resamples, with or without a practical margin. |
| `Sweep.ConclusionIsDirectionNeutral` | src/lambdaforge/analysis/StudyAnalysis.py:572-640 | Negating all values and swapping the direction changes no winner and no outcome of the same draws. |
| `Sweep.LeaderIsDirectionNeutral` | src/lambdaforge/analysis/StudyAnalysis.py:562-571 | Nor the point-estimate leader. |
| `Sweep.LeaderIsFirstBest` | src/lambdaforge/analysis/StudyAnalysis.py:562-571 | The point-estimate leader is the first trial with the greatest mean when the mode is "max", with the least otherwise. |
| `Sweep.ComparisonIsDirectionNeutral` | src/lambdaforge/analysis/StudyAnalysis.py:492-537 | Nor any paired comparison. |
| `Sweep.ComparisonMeans` | src/lambdaforge/analysis/StudyAnalysis.py:492-537 | In the direction of the objective, superiority counts the seeds won and half of those drawn, consistency the larger of those not lost and not won, and equivalence those within the margin. |
| `Sweep.SwappedSides` | src/lambdaforge/analysis/StudyAnalysis.py:492-537 | Swapping the two trials of a comparison negates the mean difference, complements the probability of superiority and keeps the rest. |
| `Pareto.FrontCovers` | src/lambdaforge/analysis/Diagnostics.py:108-119 | Every dominated row is dominated by a row of the front. |
| `Pareto.FrontIsNonEmpty` | src/lambdaforge/analysis/Diagnostics.py:108-119 | A non-empty list has a non-empty front. |
| `Pareto.FrontIgnoresOrder` | src/lambdaforge/analysis/Diagnostics.py:108-119 | The front as a multiset does not depend on the order of the rows. |
| `Pareto.FrontIsStable` | src/lambdaforge/analysis/Diagnostics.py:108-119 | Dropping the excluded rows changes nothing: the front of the front is the front. |
| `Pareto.FrontHoldsBestObjective` | src/lambdaforge/analysis/Diagnostics.py:108-127 | Every cost front holds a row with the best objective of all, at no higher cost than any given best row. |
| `Pareto.CostIsAComponent` | src/lambdaforge/analysis/Diagnostics.py:477-489 | Two-dimensional dominance is the general one over an objective and a cost to be minimised. |
| `Pareto.ComponentsAreStrict` | src/lambdaforge/analysis/StudyAnalysis.py:869-880 | With one direction per metric, dominance is irreflexive and transitive. |
| `Pareto.ComponentPareto` | src/lambdaforge/analysis/StudyAnalysis.py:857-887 | The nested loops with flags and an early break list, in order, the trials of the front of the comparable candidates; fewer than two metrics give none. |
| `Monitor.TurnKeepsInv` | src/lambdaforge/cli/LiveJobMonitor.py:2415-3192 | Every turn keeps: at most one of pending cancel, pending history and running history action, in a mode that reads its answer; log and run workers only in their own modes; every live process held by exactly one variable, so none is replaced unclosed; every act answering its request. |
| `Monitor.PendingFreezes` | src/lambdaforge/cli/LiveJobMonitor.py:2829-2891 | While a request is pending or a history action runs, no key and no snapshot changes the mode or the target of the request. |
| `Monitor.PendingIsAnswered` | src/lambdaforge/cli/LiveJobMonitor.py:2829-2891 | Over every run, in each turn that begins with a pending request its own key, y or Enter carries it out, exactly once and in that turn, n or Escape drops it, and any other key leaves it; an accepted cancel asks for a new snapshot, and a carried-out change of the history is held by a worker. |
| `Monitor.InterruptionIsRecorded` | src/lambdaforge/cli/LiveJobMonitor.py:2829-2891 | Over every run, an exception leaves the monitor, and a request pending then is on record as carried out exactly when its confirming key had begun to be acted on, as dropped when that was done, and as pending otherwise. |
| `Monitor.RequestsAreMade` | src/lambdaforge/cli/LiveJobMonitor.py:2892-3192 | In a turn that reads the keys of its view, x, d and D request exactly what the view allows, for what is selected on the screen, and no other key requests anything. |
| `Monitor.EnterGoesDown` | src/lambdaforge/cli/LiveJobMonitor.py:2638-3192 | Enter or Right opens the view of what is selected if and only if there is something to open; the log or run that opens is the selected one, with a worker to load it. |
| `Monitor.BackGoesUp` | src/lambdaforge/cli/LiveJobMonitor.py:2638-3192 | Every back key leaves a view for the one it was opened from, ends the worker of a log or run view, and changes no selection and no request. |
| `Monitor.EnterThenBack` | src/lambdaforge/cli/LiveJobMonitor.py:2638-3192 | Over every run, opening and then any back key lead back to the view they started from. |
| `Monitor.CursorMoves` | src/lambdaforge/cli/LiveJobMonitor.py:2892-3192 | In each of the six lists j moves the cursor one on and k one back, stopping at the ends, and changes nothing else that a request or worker depends on. |
| `Monitor.ShortcutsWork` | src/lambdaforge/cli/LiveJobMonitor.py:2638-3192 | `q` in the overview is the only way out; `r` has a snapshot or the run on the screen loaded, `e` the log anew with the traceback shown or hidden, `a` and `i` open the attempts and the parameters of a study, Tab goes to the other list of the overview if it has a row. |
| `Monitor.ObservationIsExact` | src/lambdaforge/cli/LiveJobMonitor.py:2415-2500 | In every turn each worker variable keeps its process until it answers, then holds a fresh one exactly if one is due and none otherwise; the payload changes only by a snapshot that carries data, and a finished history action or a due refresh brings a snapshot worker unless a live one is there. |
| `Monitor.Run` | src/lambdaforge/cli/LiveJobMonitor.py:2381-3201 | Over every input sequence, left by a key or by an exception at any of fourteen points of a turn, such as between closing and starting a worker or between carrying out an action and clearing its request: no process stays open; every destructive act follows, with nothing in between, an earlier request for the same target, and is caused by a confirming key of its own turn. |
| `Monitor.ActsAreKeyed` | src/lambdaforge/cli/LiveJobMonitor.py:2638-3192 | Every request, abort and execution of a run carries the turn and the key that caused it. |
| `Monitor.EscapesHome` | src/lambdaforge/cli/LiveJobMonitor.py:2638-3192 | From every point of every run, five Escape keys with no history action in the way lead to the overview with nothing pending, and never leave the monitor. |
| `Monitor.RequestNamesSelection` | src/lambdaforge/cli/LiveJobMonitor.py:2892-3192 | Every new request names the row, attempt or job that is selected on the screen at its turn. |
| `Monitor.ClampIsClamped` | src/lambdaforge/cli/LiveJobMonitor.py:2501-2526 | After every observation all selections lie inside the lists of the current snapshot, which makes every list access of the key handlers defined. |
| `Monitor.MoveIsOneStep` | src/lambdaforge/cli/LiveJobMonitor.py:250-270 | Moving in the overview is one step on the list of clusters followed by jobs, stopping at its ends. |
| `Monitor.AttemptsStayInReach` | src/lambdaforge/cli/LiveJobMonitor.py:2509-2526 | Over every run, a cancel or delete requested and a log opened in the Work view name an attempt whose position passes neither the last attempt nor the last job of the selected cluster. |
| `Monitor.DownReaches` | src/lambdaforge/cli/LiveJobMonitor.py:2501-2526 | From every point of every run in the Work view, n down keys without a new snapshot select the attempt n further on, stopping at that position: exactly the attempts up to it can be reached. |
| `Monitor.AttemptOutOfReach` | src/lambdaforge/cli/LiveJobMonitor.py:2509-2526 | A run of two turns that selects the second attempt of a Work, and loses it in the next turn whatever that turn brings but a snapshot. |
| `Monitor.StudyCancels` | src/lambdaforge/cli/LiveJobMonitor.py:2951-3010 | Over every run, `x` in a study view asks to cancel what now stands at the position of the opened Work: that Work if and only if it is still there, a listed Work if and only if any is still listed. |
| `Monitor.StudyCancelStrays` | src/lambdaforge/cli/LiveJobMonitor.py:2951-2964 | Two runs: after a snapshot that reorders the Works the key cancels another Work than the one opened, after one without Works it names a raw Job. |
| `BackgroundProcess.Worker.Start` | src/lambdaforge/cli/LiveJobMonitor.py:2279-2289 | Starting a running worker changes nothing; otherwise its old process is released before a new one is held, as the event loop's model of a start says. |
| `BackgroundProcess.Worker.Take` | src/lambdaforge/cli/LiveJobMonitor.py:2291-2299 | A readable worker gives its result, or a failure if it died silently, exactly once, and holds no process afterwards. |
| `BackgroundProcess.Worker.Close` | src/lambdaforge/cli/LiveJobMonitor.py:2301-2308 | Closing releases the process and only it. |

## Left out

- `GPUPlacementPlanner` and the resource model: the planner is an arbitrary chooser, and what is claimed of it is a stated condition (never stalls, fits the device).
- The comparison of heavy-run starvation in `tests/hpo/test_resource_scheduling_benchmark.py`: it depends on the planner's priorities, which are not part of this model.
- Strict improvement over the fixed policy: it holds for the benchmark's own workload and planner only; for every workload the comparison is not strict.
- Fingerprints are the stat stamp itself (an injective hash), and a stamp is never reused; `st_dev` and the path are constant.
- The `analysis`, `run`, `trial`-detail, filtered and historical `interactive` views, which read more than the fingerprinted file: nothing is claimed about their consistency.
- JSON text, base64, locks, symlink checks, time limits and byte limits of responses.
- StudyProjection.StudyTable: field order and texts inside values are not modelled; `str` and `int` are arbitrary functions of which only `int` on integers is fixed.
- Families.PlaceMembers: null and nested lists or objects as coordinate values are not modelled.
- MetricCatalog.Resolve: labels, units, roles, visibility and the other display metadata of a metric are not modelled; only split and lineage are.
- `AnalysisSurrogate`, response curves, `top_region_importance`, `_quantiles` and `_jensen_shannon`, which rest on kernels and logarithms whose rounding is the point.
- MixedDistance.TriangleInequality: stated for configurations inside the domain; outside it the code may compare one pair on a logarithmic and another on a linear scale.
- Coverage.AttemptedCoversMore: the distance is any function, and the index of the 90th percentile is computed exactly; marginals, baseline designs, slopes and boundary diagnostics are not modelled.
- The effect sizes and permutation p-values of `_relationship`: p-values are arbitrary numbers in [0, 1].
- The correlation threshold of redundancy is compared through squares, so no square root is taken.
- Evidence.Account: a design status recorded in the source replaces the computed one in the code; the model has the computed one only.
- Sweep.Resample: draws are arbitrary lists of common seeds, not 2000 of a fixed generator; bootstrap intervals and the text form of outcome tokens are not modelled.
- `candidate_statistics`, `compare_candidates` and the efficient alternatives of `resource_analysis`: straightforward filters and differences.
- Monitor.Run: rendering, messages, scroll and chart positions, epoch selection and refresh times are not modelled; whether a refresh is due, an epoch can be opened or a worker is alive is an input.
- Monitor.TurnKeepsInv: a worker taken as alive at one point of a turn may be dead at the next; each check is a separate input, which allows more behaviours than the operating system does.
- `ResourceHistory`, HTML reports, the command line, dataset commands and environment manifests.
