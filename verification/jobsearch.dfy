/** The job-search page's pure helpers: reading an SDG score and a skill list
    out of backend text, the salary-bucket test, the editable skill list, the
    request's skill filter and the offline fallback over the featured jobs. */
module JobSearch {
  import opened Wrappers
  import opened Text
  import opened Seqs

  // ---------------------------------------------------------------------
  // extractSDGScore: the first match of /\d+\/\d+/, or "8/10"
  // ---------------------------------------------------------------------

  /** A text of the shape `\d+/\d+`: digits, one slash, digits. */
  predicate SlashShape(t: string) {
    exists k | 0 < k < |t| - 1 :: t[k] == '/' && AllDigits(t[..k]) && AllDigits(t[k + 1..])
  }

  /** `s[p..q]` is a match of the pattern `\d+\/\d+`. */
  predicate MatchAt(s: string, p: nat, q: nat) {
    p <= q <= |s| && SlashShape(s[p..q])
  }

  /** The score shown when the text carries none. */
  const DefaultScore: string := "8/10"

  /** The position of the slash in a text of the shape `\d+/\d+`. */
  lemma SlashPosition(t: string) returns (k: nat)
    requires SlashShape(t)
    ensures 0 < k < |t| - 1 && t[k] == '/' && AllDigits(t[..k]) && AllDigits(t[k + 1..])
  {
    k :| 0 < k < |t| - 1 && t[k] == '/' && AllDigits(t[..k]) && AllDigits(t[k + 1..]);
  }

  /** An all-digit slice says every position in its range holds a digit. */
  lemma DigitsOfSlice(s: string, a: nat, b: nat)
    requires a <= b <= |s| && AllDigits(s[a..b])
    ensures forall i :: a <= i < b ==> IsDigit(s[i])
  {
    forall i | a <= i < b ensures IsDigit(s[i]) {
      assert s[i] == s[a..b][i - a];
    }
  }

  /** Any match at `p` ends its first digit run at a slash followed by a
      digit, and cannot run past the digits after that slash. */
  lemma MatchStructure(s: string, p: nat, q: nat)
    requires MatchAt(s, p, q)
    ensures var e := RunEnd(s, p);
            && p < e && e + 1 < q && s[e] == '/' && IsDigit(s[e + 1]) && q <= RunEnd(s, e + 1)
  {
    var t := s[p..q];
    var k := SlashPosition(t);
    assert t[..k] == s[p..p + k];
    DigitsOfSlice(s, p, p + k);
    assert s[p + k] == t[k];
    RunEndUnique(s, p, p + k);
    assert t[k + 1..] == s[p + k + 1..q];
    DigitsOfSlice(s, p + k + 1, q);
    RunEndAtLeast(s, p + k + 1, q);
  }

  /** End of the longest match that starts at `p`, if any starts there. */
  function LongestAt(s: string, p: nat): (r: Option<nat>)
    requires p <= |s|
    ensures r.None? ==> forall q: nat :: !MatchAt(s, p, q)
    ensures r.Some? ==> MatchAt(s, p, r.value) && forall q: nat :: r.value < q ==> !MatchAt(s, p, q)
  {
    var e := RunEnd(s, p);
    if p < e && e + 1 < |s| && s[e] == '/' && IsDigit(s[e + 1]) then
      var q := RunEnd(s, e + 1);
      var t := s[p..q];
      assert t[e - p] == '/';
      var head, tail := t[..e - p], t[e - p + 1..];
      assert AllDigits(head) by {
        forall i | 0 <= i < |head| ensures IsDigit(head[i]) {
          assert head[i] == s[p + i];
        }
      }
      assert AllDigits(tail) by {
        forall i | 0 <= i < |tail| ensures IsDigit(tail[i]) {
          assert tail[i] == s[e + 1 + i];
        }
      }
      assert MatchAt(s, p, q);
      assert forall q': nat :: q < q' ==> !MatchAt(s, p, q') by {
        forall q': nat | q < q' && MatchAt(s, p, q') ensures false {
          MatchStructure(s, p, q');
        }
      }
      Some(q)
    else
      assert forall q: nat :: !MatchAt(s, p, q) by {
        forall q: nat | MatchAt(s, p, q) ensures false {
          MatchStructure(s, p, q);
        }
      }
      None
  }

  /** `String.prototype.match` without the global flag: the leftmost start at
      which the pattern matches, and there the longest match (the pattern's
      two greedy runs). */
  method FindScore(s: string) returns (r: Option<(nat, nat)>)
    ensures r.None? ==> forall p: nat, q: nat :: !MatchAt(s, p, q)
    ensures r.Some? ==>
              && MatchAt(s, r.value.0, r.value.1)
              && (forall p: nat, q: nat :: p < r.value.0 ==> !MatchAt(s, p, q))
              && (forall q: nat :: r.value.1 < q ==> !MatchAt(s, r.value.0, q))
  {
    var p := 0;
    while p < |s|
      invariant p <= |s|
      invariant forall p': nat, q: nat :: p' < p ==> !MatchAt(s, p', q)
    {
      var m := LongestAt(s, p);
      if m.Some? {
        return Some((p, m.value));
      }
      p := p + 1;
    }
    return None;
  }

  /** `extractSDGScore`: the matched text, or the default score when the text
      holds no `digits/digits`. Either way the result has that shape. */
  method ExtractSDGScore(impact: string) returns (score: string)
    ensures SlashShape(score)
    ensures (forall p: nat, q: nat :: !MatchAt(impact, p, q)) ==> score == DefaultScore
    ensures (exists p: nat, q: nat :: MatchAt(impact, p, q)) ==>
              exists p: nat, q: nat :: && MatchAt(impact, p, q) && score == impact[p..q]
                                       && (forall p': nat, q': nat :: p' < p ==> !MatchAt(impact, p', q'))
                                       && (forall q': nat :: q < q' ==> !MatchAt(impact, p, q'))
  {
    var found := FindScore(impact);
    if found.Some? {
      score := impact[found.value.0..found.value.1];
    } else {
      score := DefaultScore;
      assert score[1] == '/' && AllDigits(score[..1]) && AllDigits(score[2..]);
    }
  }

  // ---------------------------------------------------------------------
  // extractSkills: the first three common skills the description mentions
  // ---------------------------------------------------------------------

  const CommonSkills: seq<string> :=
    ["Python", "Power BI", "Analytics", "Data", "ESG", "Solar", "Renewable", "Sustainability"]

  /** How many skills a card shows. */
  const MaxSkills: nat := 3

  /** Case-insensitive mention of `skill` in `description`. */
  predicate Mentions(description: string, skill: string) {
    Includes(Lower(description), Lower(skill))
  }

  function MentionedIn(description: string): string -> bool {
    skill => Mentions(description, skill)
  }

  /** `extractSkills`: the common skills the description mentions, in list
      order, cut after the third. */
  function ExtractSkills(description: string): (r: seq<string>)
    ensures |r| <= MaxSkills
    ensures IsSubsequence(r, CommonSkills)
    ensures forall i :: 0 <= i < |r| ==> Occurs(Lower(r[i]), Lower(description))
  {
    var p := MentionedIn(description);
    TakeFilterIsSubsequence(CommonSkills, p, MaxSkills);
    Take(Filter(CommonSkills, p), MaxSkills)
  }

  /** The skills shown are the first mentions: there is a prefix of the list,
      either the whole list or long enough to have produced three, whose
      mentioned skills, in list order, are exactly the result. So fewer than
      three skills means every mentioned common skill is there. */
  lemma SkillsAreFirstMentions(description: string) returns (m: nat)
    ensures m <= |CommonSkills|
    ensures |ExtractSkills(description)| == MaxSkills || m == |CommonSkills|
    ensures ExtractSkills(description) == Filter(CommonSkills[..m], MentionedIn(description))
    ensures forall x :: x in ExtractSkills(description) ==> x in CommonSkills[..m]
    ensures forall i :: 0 <= i < m ==>
              (CommonSkills[i] in ExtractSkills(description) <==> Occurs(Lower(CommonSkills[i]), Lower(description)))
    ensures |ExtractSkills(description)| < MaxSkills ==>
              forall i :: 0 <= i < |CommonSkills| ==>
                (Occurs(Lower(CommonSkills[i]), Lower(description)) ==> CommonSkills[i] in ExtractSkills(description))
  {
    var p := MentionedIn(description);
    m := FirstMatches(CommonSkills, p, MaxSkills);
  }

  // ---------------------------------------------------------------------
  // checkSalaryMatch: the first number of a salary against a bucket
  // ---------------------------------------------------------------------

  /** Index of the first digit at or after `i` (|s| when there is none). */
  function FirstDigitFrom(s: string, i: nat): (k: nat)
    requires i <= |s|
    ensures i <= k <= |s|
    ensures forall j :: i <= j < k ==> !IsDigit(s[j])
    ensures k < |s| ==> IsDigit(s[k])
    decreases |s| - i
  {
    if i == |s| || IsDigit(s[i]) then i else FirstDigitFrom(s, i + 1)
  }

  /** `parseInt(s.match(/\d+/)[0])`: the value of the leftmost run of digits;
      `None` where `match` yields null and the indexing throws. */
  function FirstNumber(s: string): (r: Option<nat>)
    ensures r.None? <==> forall j :: 0 <= j < |s| ==> !IsDigit(s[j])
    ensures r.Some? ==> exists k :: && 0 <= k < |s| && IsDigit(s[k])
                                    && (forall j :: 0 <= j < k ==> !IsDigit(s[j]))
                                    && r.value == ParseDigits(s[k..RunEnd(s, k)])
  {
    var k := FirstDigitFrom(s, 0);
    if k == |s| then None
    else
      var e := RunEnd(s, k);
      var run := s[k..e];
      assert AllDigits(run) by {
        forall j | 0 <= j < |run| ensures IsDigit(run[j]) {
          assert run[j] == s[k + j];
        }
      }
      Some(ParseDigits(run))
  }

  /** The salary filter's options, in lakh per annum: a lower bound and, except
      for the open top bucket, an upper bound; both bounds are inclusive. */
  datatype Bucket = Bucket(low: nat, high: Option<nat>)

  /** The buckets the salary filter offers; any other value filters nothing. */
  function BucketOf(range: string): Option<Bucket> {
    if range == "0-10" then Some(Bucket(0, Some(10)))
    else if range == "10-15" then Some(Bucket(10, Some(15)))
    else if range == "15-20" then Some(Bucket(15, Some(20)))
    else if range == "20+" then Some(Bucket(20, None))
    else None
  }

  predicate InBucket(n: nat, range: string) {
    match BucketOf(range)
    case None => true
    case Some(b) => b.low <= n && (b.high.None? || n <= b.high.value)
  }

  /** `checkSalaryMatch`: `None` where the source throws (a salary without a
      digit), otherwise whether the salary's first number lies in the bucket. */
  function CheckSalaryMatch(salary: string, range: string): (r: Option<bool>)
    ensures r.None? <==> forall j :: 0 <= j < |salary| ==> !IsDigit(salary[j])
    ensures r.Some? ==> (r.value <==> InBucket(FirstNumber(salary).value, range))
  {
    match FirstNumber(salary)
    case None => None
    case Some(n) =>
      if range == "0-10" then Some(n <= 10)
      else if range == "10-15" then Some(n >= 10 && n <= 15)
      else if range == "15-20" then Some(n >= 15 && n <= 20)
      else if range == "20+" then Some(n >= 20)
      else Some(true)
  }

  const KnownRanges: seq<string> := ["0-10", "10-15", "15-20", "20+"]

  /** Every salary falls in at least one of the offered buckets. */
  lemma BucketsCoverAllSalaries(n: nat)
    ensures exists i :: 0 <= i < |KnownRanges| && InBucket(n, KnownRanges[i])
  {
    if n <= 10 { assert InBucket(n, KnownRanges[0]); }
    else if n <= 15 { assert InBucket(n, KnownRanges[1]); }
    else if n <= 20 { assert InBucket(n, KnownRanges[2]); }
    else { assert InBucket(n, KnownRanges[3]); }
  }

  /** Neighbouring buckets share their boundary, so a salary lies in two
      offered buckets exactly when it is 10, 15 or 20. */
  lemma BucketsOverlapAtBoundaries(n: nat)
    ensures (exists i, j :: 0 <= i < j < |KnownRanges| && InBucket(n, KnownRanges[i]) && InBucket(n, KnownRanges[j]))
            <==> n == 10 || n == 15 || n == 20
  {
    if n == 10 { assert InBucket(n, KnownRanges[0]) && InBucket(n, KnownRanges[1]); }
    if n == 15 { assert InBucket(n, KnownRanges[1]) && InBucket(n, KnownRanges[2]); }
    if n == 20 { assert InBucket(n, KnownRanges[2]) && InBucket(n, KnownRanges[3]); }
  }

  // ---------------------------------------------------------------------
  // The editable skill list
  // ---------------------------------------------------------------------

  /** The list the page starts from (and `clearFilters` restores). */
  const InitialSkills: seq<string> := ["Python"]

  /** `addSkill`: a new empty entry at the end. */
  function AddSkill(skills: seq<string>): (r: seq<string>)
    ensures |r| == |skills| + 1
    ensures r[..|skills|] == skills && r[|skills|] == ""
  {
    skills + [""]
  }

  /** `updateSkill`: the entry at `index` becomes `value`, the others stay.
      The page only passes indices of rendered entries. */
  function UpdateSkill(skills: seq<string>, index: nat, value: string): (r: seq<string>)
    requires index < |skills|
    ensures |r| == |skills| && r[index] == value
    ensures forall i :: 0 <= i < |skills| && i != index ==> r[i] == skills[i]
  {
    skills[index := value]
  }

  /** `filter((_, i) => i !== index)`: every entry whose position differs
      from `index`. */
  function WithoutIndex<T>(s: seq<T>, index: int): (r: seq<T>)
    ensures 0 <= index < |s| ==> r == s[..index] + s[index + 1..]
    ensures !(0 <= index < |s|) ==> r == s
    decreases |s|
  {
    if |s| == 0 then []
    else
      var init := WithoutIndex(s[..|s| - 1], index);
      if index == |s| - 1 then init else init + [s[|s| - 1]]
  }

  /** `removeSkill`: drops the entry at `index` unless it is the last one left. */
  function RemoveSkill(skills: seq<string>, index: int): (r: seq<string>)
    ensures |skills| <= 1 ==> r == skills
    ensures |skills| > 1 && 0 <= index < |skills| ==> |r| == |skills| - 1
    ensures |skills| > 1 && 0 <= index < |skills| ==>
              forall i :: 0 <= i < |r| ==> r[i] == if i < index then skills[i] else skills[i + 1]
    ensures !(0 <= index < |skills|) ==> r == skills
  {
    if |skills| > 1 then WithoutIndex(skills, index) else skills
  }

  /** Removing the entry just added gives the list back. */
  lemma RemoveUndoesAdd(skills: seq<string>)
    requires |skills| >= 1
    ensures RemoveSkill(AddSkill(skills), |skills|) == skills
  {
    assert AddSkill(skills)[..|skills|] == skills;
  }

  /** Writing back the old value undoes an update. */
  lemma UpdateRestores(skills: seq<string>, index: nat, value: string)
    requires index < |skills|
    ensures UpdateSkill(UpdateSkill(skills, index, value), index, skills[index]) == skills
  {
  }

  /** The list is never emptied: each edit keeps at least one entry. */
  lemma EditsKeepAnEntry(skills: seq<string>, index: nat, value: string)
    requires |skills| >= 1
    ensures |AddSkill(skills)| >= 1
    ensures index < |skills| ==> |UpdateSkill(skills, index, value)| >= 1
    ensures |RemoveSkill(skills, index)| >= 1
  {
  }

  /** An edit the page can issue on the skill list. */
  datatype SkillEdit = AddEntry | UpdateEntry(index: nat, value: string) | RemoveEntry(at: int)

  /** The list after a run of edits; `None` when an update names an entry the
      list does not have, which the page never renders a field for. */
  function Replay(skills: seq<string>, edits: seq<SkillEdit>): Option<seq<string>>
    decreases |edits|
  {
    if |edits| == 0 then Some(skills)
    else
      match edits[0]
      case AddEntry => Replay(AddSkill(skills), edits[1..])
      case UpdateEntry(i, v) => if i < |skills| then Replay(UpdateSkill(skills, i, v), edits[1..]) else None
      case RemoveEntry(i) => Replay(RemoveSkill(skills, i), edits[1..])
  }

  /** Any run of edits on a non-empty list leaves at least one entry. */
  lemma {:induction false} ReplayKeepsAnEntry(skills: seq<string>, edits: seq<SkillEdit>)
    requires |skills| >= 1 && Replay(skills, edits).Some?
    ensures |Replay(skills, edits).value| >= 1
    decreases |edits|
  {
    if |edits| > 0 {
      match edits[0]
      case AddEntry => ReplayKeepsAnEntry(AddSkill(skills), edits[1..]);
      case UpdateEntry(i, v) => ReplayKeepsAnEntry(UpdateSkill(skills, i, v), edits[1..]);
      case RemoveEntry(i) => ReplayKeepsAnEntry(RemoveSkill(skills, i), edits[1..]);
    }
  }

  /** Starting from the page's initial list, the skill list is never empty,
      so the page always renders at least one field. */
  lemma SessionKeepsAnEntry(edits: seq<SkillEdit>)
    requires Replay(InitialSkills, edits).Some?
    ensures |Replay(InitialSkills, edits).value| >= 1
  {
    ReplayKeepsAnEntry(InitialSkills, edits);
  }

  // ---------------------------------------------------------------------
  // The request's skill list
  // ---------------------------------------------------------------------

  predicate NonBlank(skill: string) {
    Trim(skill) != ""
  }

  /** `skills.filter(skill => skill.trim() !== '')`: the entries holding a
      character that is not white space, in order. */
  function RequestSkills(skills: seq<string>): (r: seq<string>)
    ensures forall i :: 0 <= i < |r| ==> !Blank(r[i])
    ensures IsSubsequence(r, skills)
    ensures forall x :: multiset(r)[x] == if Blank(x) then 0 else multiset(skills)[x]
  {
    var r := Filter(skills, NonBlank);
    FilterSpec(skills, NonBlank);
    forall i | 0 <= i < |r| ensures !Blank(r[i]) {
      TrimEmptyIffBlank(r[i]);
    }
    forall x ensures multiset(r)[x] == if Blank(x) then 0 else multiset(skills)[x] {
      TrimEmptyIffBlank(x);
    }
    r
  }

  // ---------------------------------------------------------------------
  // The offline fallback over the featured jobs
  // ---------------------------------------------------------------------

  /** The fields of a featured card the fallback filter reads. */
  datatype FeaturedJob = FeaturedJob(id: nat, title: string, company: string, location: string, salary: string)

  /** The page's built-in job cards. */
  const FeaturedJobs: seq<FeaturedJob> := [
    FeaturedJob(1, "Senior Solar Energy Engineer", "Tata Power Renewables", "Bengaluru, Karnataka", "\U{20B9}12-18 LPA"),
    FeaturedJob(2, "Sustainability Data Analyst", "Adani Green Energy", "Mumbai, Maharashtra", "\U{20B9}10-15 LPA"),
    FeaturedJob(3, "Green Building Architect", "ReNew Power", "Delhi NCR", "\U{20B9}14-20 LPA"),
    FeaturedJob(4, "ESG Reporting Manager", "Suzlon Energy", "Pune, Maharashtra", "\U{20B9}15-22 LPA"),
    FeaturedJob(5, "Wind Energy Analyst", "Inox Wind", "Ahmedabad, Gujarat", "\U{20B9}11-16 LPA"),
    FeaturedJob(6, "Carbon Accounting Specialist", "Mahindra Sustainability", "Chennai, Tamil Nadu", "\U{20B9}12-17 LPA")
  ]

  /** The search form's filters; an empty string means "not set". */
  datatype Filters = Filters(location: string, salaryRange: string, experience: string)

  /** The location test: unset, or a case-insensitive substring of the card's location. */
  ghost predicate LocationMatches(job: FeaturedJob, location: string) {
    location == "" || Occurs(Lower(location), Lower(job.location))
  }

  /** The salary test, stated on the bucket table. */
  ghost predicate SalaryMatches(job: FeaturedJob, range: string) {
    range == "" || (FirstNumber(job.salary).Some? && InBucket(FirstNumber(job.salary).value, range))
  }

  /** The salary test throws for this card: a range is set and the salary has no digit. */
  predicate SalaryThrows(job: FeaturedJob, range: string) {
    range != "" && FirstNumber(job.salary).None?
  }

  /** One card through the filter callback: `None` where it throws. */
  function KeepJob(job: FeaturedJob, filters: Filters): (r: Option<bool>)
    ensures r.None? <==> SalaryThrows(job, filters.salaryRange)
    ensures r.Some? ==> (r.value <==> LocationMatches(job, filters.location) && SalaryMatches(job, filters.salaryRange))
  {
    var matchesLocation := filters.location == "" || Includes(Lower(job.location), Lower(filters.location));
    var matchesSalary := if filters.salaryRange == "" then Some(true) else CheckSalaryMatch(job.salary, filters.salaryRange);
    var matchesExperience := filters.experience == "" || true;
    match matchesSalary
    case None => None
    case Some(salaryOk) => Some(matchesLocation && salaryOk && matchesExperience)
  }

  /** The `catch` branch of `handleSearch`: the featured cards that pass the
      location, salary and experience tests, in order; `None` where the
      callback throws for some card. */
  function FallbackJobs(jobs: seq<FeaturedJob>, filters: Filters): (r: Option<seq<FeaturedJob>>)
    ensures r.None? <==> exists i :: 0 <= i < |jobs| && SalaryThrows(jobs[i], filters.salaryRange)
    ensures r.Some? ==> |r.value| <= |jobs|
    decreases |jobs|
  {
    if |jobs| == 0 then Some([])
    else
      match KeepJob(jobs[0], filters)
      case None => None
      case Some(keep) =>
        match FallbackJobs(jobs[1..], filters)
        case None => None
        case Some(rest) =>
          assert forall i :: 1 <= i < |jobs| ==> jobs[i] == jobs[1..][i - 1];
          Some(if keep then [jobs[0]] + rest else rest)
  }

  /** A card passes the location and salary tests. */
  ghost predicate Passes(job: FeaturedJob, filters: Filters) {
    LocationMatches(job, filters.location) && SalaryMatches(job, filters.salaryRange)
  }

  /** What the fallback shows: an order-preserving selection of the cards that
      holds every card passing the location and salary tests and no other,
      each as many times as it occurs among the cards. */
  lemma {:induction false} FallbackSelects(jobs: seq<FeaturedJob>, filters: Filters)
    requires FallbackJobs(jobs, filters).Some?
    ensures var r := FallbackJobs(jobs, filters).value;
            && IsSubsequence(r, jobs)
            && (forall i :: 0 <= i < |r| ==> Passes(r[i], filters))
            && (forall i :: 0 <= i < |jobs| ==> Passes(jobs[i], filters) ==> jobs[i] in r)
            && (forall x :: multiset(r)[x] == if Passes(x, filters) then multiset(jobs)[x] else 0)
    decreases |jobs|
  {
    var r := FallbackJobs(jobs, filters).value;
    if |jobs| > 0 {
      var tail := jobs[1..];
      FallbackSelects(tail, filters);
      var rest := FallbackJobs(tail, filters).value;
      var keep := FallbackUnfold(jobs, filters);
      assert jobs == [jobs[0]] + tail;
      SelectionStep(jobs[0], tail, rest, keep, filters);
    }
    forall i | 0 <= i < |jobs| && Passes(jobs[i], filters) ensures jobs[i] in r {
      assert multiset(r)[jobs[i]] == multiset(jobs)[jobs[i]] > 0;
    }
  }

  /** One step of the fallback: the first card is kept exactly when it passes. */
  lemma FallbackUnfold(jobs: seq<FeaturedJob>, filters: Filters) returns (keep: bool)
    requires |jobs| > 0 && FallbackJobs(jobs, filters).Some?
    ensures keep <==> Passes(jobs[0], filters)
    ensures FallbackJobs(jobs[1..], filters).Some?
    ensures FallbackJobs(jobs, filters).value ==
              if keep then [jobs[0]] + FallbackJobs(jobs[1..], filters).value else FallbackJobs(jobs[1..], filters).value
  {
    keep := KeepJob(jobs[0], filters).value;
  }

  /** The inductive step: prepending one card, kept exactly when it passes,
      to a selection of the rest keeps it a selection with the right counts. */
  lemma SelectionStep(head: FeaturedJob, tail: seq<FeaturedJob>, rest: seq<FeaturedJob>,
                      keep: bool, filters: Filters)
    requires keep <==> Passes(head, filters)
    requires IsSubsequence(rest, tail)
    requires forall i :: 0 <= i < |rest| ==> Passes(rest[i], filters)
    requires forall x :: multiset(rest)[x] == if Passes(x, filters) then multiset(tail)[x] else 0
    ensures var r := if keep then [head] + rest else rest;
            && IsSubsequence(r, [head] + tail)
            && (forall i :: 0 <= i < |r| ==> Passes(r[i], filters))
            && (forall x :: multiset(r)[x] == if Passes(x, filters) then multiset([head] + tail)[x] else 0)
  {
    var r := if keep then [head] + rest else rest;
    var jobs := [head] + tail;
    assert jobs[1..] == tail;
    if keep {
      assert r[0] == head && r[1..] == rest;
      assert forall i :: 1 <= i < |r| ==> r[i] == rest[i - 1];
    }
    forall x ensures multiset(r)[x] == if Passes(x, filters) then multiset(jobs)[x] else 0 {
      assert multiset(jobs)[x] == multiset([head])[x] + multiset(tail)[x];
      if keep {
        assert multiset(r)[x] == multiset([head])[x] + multiset(rest)[x];
      }
    }
  }


  /** The experience filter has no effect on the fallback. */
  lemma ExperienceIgnored(jobs: seq<FeaturedJob>, location: string, range: string, e1: string, e2: string)
    ensures FallbackJobs(jobs, Filters(location, range, e1)) == FallbackJobs(jobs, Filters(location, range, e2))
  {
  }

  /** Every featured salary starts with a number, so the fallback over the
      featured cards never throws. */
  lemma FeaturedFallbackSucceeds(filters: Filters)
    ensures FallbackJobs(FeaturedJobs, filters).Some?
  {
    forall i | 0 <= i < |FeaturedJobs| ensures !SalaryThrows(FeaturedJobs[i], filters.salaryRange) {
      FeaturedSalaryFloors(i);
    }
  }

  /** A salary written as a currency sign and a two-digit number. */
  lemma TwoDigitFloor(s: string)
    requires |s| >= 4 && !IsDigit(s[0]) && IsDigit(s[1]) && IsDigit(s[2]) && !IsDigit(s[3])
    ensures FirstNumber(s) == Some(10 * DigitValue(s[1]) + DigitValue(s[2]))
  {
    assert FirstDigitFrom(s, 0) == 1;
    RunEndUnique(s, 1, 3);
    var run := s[1..3];
    assert run[..1] == [s[1]] && run[1] == s[2];
    assert ParseDigits(run[..1]) == DigitValue(s[1]) by {
      assert run[..1][..0] == [];
    }
  }

  /** The first number of a featured salary is its lower bound in lakh. */
  lemma FeaturedSalaryFloors(i: nat)
    requires i < |FeaturedJobs|
    ensures FirstNumber(FeaturedJobs[i].salary) == Some(FeaturedFloors[i])
  {
    TwoDigitFloor(FeaturedJobs[i].salary);
  }

  /** One step of the fallback filter. */
  lemma FallbackStep(jobs: seq<FeaturedJob>, filters: Filters, keep: bool, rest: seq<FeaturedJob>)
    requires |jobs| > 0
    requires KeepJob(jobs[0], filters) == Some(keep)
    requires FallbackJobs(jobs[1..], filters) == Some(rest)
    ensures FallbackJobs(jobs, filters) == Some(if keep then [jobs[0]] + rest else rest)
  {
  }

  /** With only a salary range set, a card is kept when its first number is in the bucket. */
  lemma KeepBySalary(job: FeaturedJob, range: string, n: nat)
    requires range != "" && FirstNumber(job.salary) == Some(n)
    ensures KeepJob(job, Filters("", range, "")) == Some(InBucket(n, range))
  {
  }

  /** Salary floors of the featured cards, in order. */
  const FeaturedFloors: seq<nat> := [12, 10, 14, 15, 11, 12]

  /** One step of the fallback with only a salary range set. */
  lemma SalaryStep(jobs: seq<FeaturedJob>, k: nat, range: string, n: nat, r: seq<FeaturedJob>)
    requires k < |jobs| && range != ""
    requires FirstNumber(jobs[k].salary) == Some(n)
    requires FallbackJobs(jobs[k + 1..], Filters("", range, "")) == Some(r)
    ensures FallbackJobs(jobs[k..], Filters("", range, "")) == Some(if InBucket(n, range) then [jobs[k]] + r else r)
  {
    var tail := jobs[k..];
    assert tail[1..] == jobs[k + 1..];
    KeepBySalary(tail[0], range, n);
    FallbackStep(tail, Filters("", range, ""), InBucket(n, range), r);
  }

  /** Only the second featured floor lies in the lowest bucket. */
  lemma OnlySecondFloorIsLow(k: nat)
    requires k < |FeaturedFloors|
    ensures InBucket(FeaturedFloors[k], "0-10") <==> k == 1
  {
    assert BucketOf("0-10") == Some(Bucket(0, Some(10)));
    assert FeaturedFloors[k] <= 10 <==> k == 1;
  }

  /** Six cards whose salaries start at the featured floors: the lowest
      bucket keeps only the second. */
  lemma LowestBucketOfFloors(jobs: seq<FeaturedJob>)
    requires |jobs| == 6
    requires forall i :: 0 <= i < 6 ==> FirstNumber(jobs[i].salary) == Some(FeaturedFloors[i])
    ensures FallbackJobs(jobs, Filters("", "0-10", "")) == Some([jobs[1]])
  {
    var k := 6;
    var r: seq<FeaturedJob> := [];
    while k > 0
      invariant 0 <= k <= 6
      invariant r == if k <= 1 then [jobs[1]] else []
      invariant FallbackJobs(jobs[k..], Filters("", "0-10", "")) == Some(r)
    {
      k := k - 1;
      SalaryStep(jobs, k, "0-10", FeaturedFloors[k], r);
      OnlySecondFloorIsLow(k);
      if k == 1 {
        r := [jobs[k]] + r;
      }
    }
    assert jobs[0..] == jobs;
  }

  /** The lowest bucket keeps only the featured card whose salary starts at
      exactly 10 lakh, the boundary it shares with the next bucket. */
  lemma LowestBucketKeepsBoundary()
    ensures FallbackJobs(FeaturedJobs, Filters("", "0-10", "")) == Some([FeaturedJobs[1]])
  {
    forall i | 0 <= i < 6 ensures FirstNumber(FeaturedJobs[i].salary) == Some(FeaturedFloors[i]) {
      FeaturedSalaryFloors(i);
    }
    LowestBucketOfFloors(FeaturedJobs);
  }

  /** No featured floor reaches the top bucket. */
  lemma NoFloorIsTop(k: nat)
    requires k < |FeaturedFloors|
    ensures !InBucket(FeaturedFloors[k], "20+")
  {
    assert BucketOf("20+") == Some(Bucket(20, None));
  }

  /** Six cards whose salaries start at the featured floors: the top bucket
      keeps none of them. */
  lemma TopBucketOfFloors(jobs: seq<FeaturedJob>)
    requires |jobs| == 6
    requires forall i :: 0 <= i < 6 ==> FirstNumber(jobs[i].salary) == Some(FeaturedFloors[i])
    ensures FallbackJobs(jobs, Filters("", "20+", "")) == Some([])
  {
    var k := 6;
    while k > 0
      invariant 0 <= k <= 6
      invariant FallbackJobs(jobs[k..], Filters("", "20+", "")) == Some([])
    {
      k := k - 1;
      SalaryStep(jobs, k, "20+", FeaturedFloors[k], []);
      NoFloorIsTop(k);
    }
    assert jobs[0..] == jobs;
  }

  /** With the top bucket chosen the fallback shows no featured card: every
      featured salary starts below 20 lakh. */
  lemma TopBucketShowsNothing()
    ensures FallbackJobs(FeaturedJobs, Filters("", "20+", "")) == Some([])
  {
    forall i | 0 <= i < 6 ensures FirstNumber(FeaturedJobs[i].salary) == Some(FeaturedFloors[i]) {
      FeaturedSalaryFloors(i);
    }
    TopBucketOfFloors(FeaturedJobs);
  }
}
