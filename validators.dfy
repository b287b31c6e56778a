/** The request validators of Program.cs. Each FluentValidation validator is a
    list of rules, one per property, each a chain of checks; every check of
    every rule runs (FluentValidation's default cascade), each failing check
    is reported, and any failure turns the request into a 422 problem. */
module Validators {
  import opened Common

  /** The DTO properties the validators look at. */
  datatype Field =
    | Name | Description | Director | Actors | ReleaseYear | Duration  // movies
    | Text | Evaluation                                                // reviews, comments

  /** A property value: a string (possibly null), an int, or a TimeSpan in
      ticks. */
  datatype Value = Str(s: Option<string>) | Int(n: int) | Span(ticks: int)

  /** The FluentValidation checks used. GreaterThan and LessThan compare ints
      and TimeSpans alike (TimeSpan.Zero is 0 ticks). */
  datatype Check =
    | NotEmpty
    | NotNull
    | Length(min: int, max: int)
    | GreaterThan(bound: int)
    | LessThan(bound: int)
    | DurationFormat   // Must(BeValidDurationFormat)

  datatype Rule = Rule(field: Field, checks: seq<Check>)

  datatype Failure = Failure(field: Field, check: Check)

  /** TimeSpan.Minutes: whole minutes, truncated toward zero, modulo 60 with
      the sign of the span. */
  function SpanMinutes(ticks: int): int
  {
    TruncMod(TruncDiv(ticks, TicksPerMinute), 60)
  }

  /** TimeSpan.Hours: whole hours, truncated toward zero, modulo 24 with the
      sign of the span. */
  function SpanHours(ticks: int): int
  {
    TruncMod(TruncDiv(ticks, TicksPerHour), 24)
  }

  /** BeValidDurationFormat. */
  predicate BeValidDurationFormat(ticks: int)
  {
    SpanMinutes(ticks) < 60 && SpanHours(ticks) >= 0
  }

  /** Whether a check accepts a value. NotEmpty refuses null, "" and strings
      of white space only; the length check lets null through (NotNull and
      NotEmpty report it). */
  predicate Passes(c: Check, v: Value)
  {
    match c
    case NotEmpty => v.Str? && !IsNullOrWhiteSpace(v.s)
    case NotNull => v.Str? && v.s.Some?
    case Length(min, max) => v.Str? && (v.s.None? || min <= |v.s.value| <= max)
    case GreaterThan(b) =>
      (v.Int? && v.n > b) || (v.Span? && v.ticks > b)
    case LessThan(b) =>
      (v.Int? && v.n < b) || (v.Span? && v.ticks < b)
    case DurationFormat => v.Span? && BeValidDurationFormat(v.ticks)
  }

  /** Runs one rule's chain of checks on its property's value. */
  function ChainFailures(f: Field, checks: seq<Check>, v: Value): (r: seq<Failure>)
    ensures forall k | 0 <= k < |r| :: r[k].field == f && r[k].check in checks && !Passes(r[k].check, v)
    ensures r == [] <==> forall j | 0 <= j < |checks| :: Passes(checks[j], v)
    decreases |checks|
  {
    if checks == [] then []
    else
      var rest := ChainFailures(f, checks[1..], v);
      assert forall c | c in checks[1..] :: c in checks;
      if Passes(checks[0], v) then rest else [Failure(f, checks[0])] + rest
  }

  /** Runs a validator's rules on a request body: each rule's failures, in
      the order of the rules. */
  function Failures(rules: seq<Rule>, body: Body): seq<Failure>
    decreases |rules|
  {
    if rules == [] then []
    else ChainFailures(rules[0].field, rules[0].checks, Get(body, rules[0].field)) + Failures(rules[1..], body)
  }

  /** A validator reports nothing iff every check of every rule accepts its
      property's value. */
  lemma {:induction false} NoFailuresIffAllPass(rules: seq<Rule>, body: Body)
    ensures Failures(rules, body) == [] <==>
      forall i, j | 0 <= i < |rules| && 0 <= j < |rules[i].checks| ::
        Passes(rules[i].checks[j], Get(body, rules[i].field))
    decreases |rules|
  {
    if rules != [] {
      NoFailuresIffAllPass(rules[1..], body);
      assert forall i | 1 <= i < |rules| :: rules[i] == rules[1..][i - 1];
    }
  }

  /** Every reported failure names a rule's property and a check of that
      rule which refuses the property's value. */
  lemma {:induction false} FailuresAreRefusals(rules: seq<Rule>, body: Body)
    ensures forall k | 0 <= k < |Failures(rules, body)| ::
      exists i | 0 <= i < |rules| ::
        && Failures(rules, body)[k].field == rules[i].field
        && Failures(rules, body)[k].check in rules[i].checks
        && !Passes(Failures(rules, body)[k].check, Get(body, rules[i].field))
    decreases |rules|
  {
    if rules != [] {
      FailuresAreRefusals(rules[1..], body);
      var r0: seq<Failure> := ChainFailures(rules[0].field, rules[0].checks, Get(body, rules[0].field));
      var rest: seq<Failure> := Failures(rules[1..], body);
      var all := Failures(rules, body);
      assert all == r0 + rest;
      forall k | 0 <= k < |all|
        ensures exists i | 0 <= i < |rules| ::
          && all[k].field == rules[i].field
          && all[k].check in rules[i].checks
          && !Passes(all[k].check, Get(body, rules[i].field))
      {
        if k < |r0| {
          assert all[k] == r0[k];
          assert all[k].field == rules[0].field && all[k].check in rules[0].checks
            && !Passes(all[k].check, Get(body, rules[0].field));
        } else {
          assert all[k] == rest[k - |r0|];
          var i :| 0 <= i < |rules[1..]| && rest[k - |r0|].field == rules[1..][i].field
            && rest[k - |r0|].check in rules[1..][i].checks
            && !Passes(rest[k - |r0|].check, Get(body, rules[1..][i].field));
          assert rules[1..][i] == rules[i + 1];
          assert all[k].field == rules[i + 1].field && all[k].check in rules[i + 1].checks
            && !Passes(all[k].check, Get(body, rules[i + 1].field));
        }
      }
    } else {
      assert Failures(rules, body) == [];
    }
  }

  // ---------------------------------------------------------------------
  // Movies

  datatype MovieDto = MovieDto(name: Option<string>, description: Option<string>,
                               director: Option<string>, actors: Option<string>,
                               releaseYear: int, duration: int, genre: Option<string>)

  function MovieValue(dto: MovieDto, f: Field): Value
  {
    match f
    case Name => Str(dto.name)
    case Description => Str(dto.description)
    case Director => Str(dto.director)
    case Actors => Str(dto.actors)
    case ReleaseYear => Int(dto.releaseYear)
    case Duration => Span(dto.duration)
    case _ => Str(None)
  }

  /** CreateMovieDtoValidator; the release-year bound depends on the current
      year of the server's clock. */
  function CreateMovieRules(currentYear: int): seq<Rule>
  {
    [ Rule(Name, [NotEmpty, NotNull, Length(1, 100)]),
      Rule(Description, [NotEmpty, NotNull, Length(2, 300)]),
      Rule(Director, [NotEmpty, NotNull, Length(2, 100)]),
      Rule(Actors, [NotEmpty, NotNull, Length(2, 300)]),
      Rule(ReleaseYear, [LessThan(1 + currentYear), GreaterThan(1900)]),
      Rule(Duration, [DurationFormat, GreaterThan(0)]) ]
  }

  /** UpdateMovieDtoValidator. */
  function UpdateMovieRules(currentYear: int): seq<Rule>
  {
    [ Rule(Name, [NotEmpty, NotNull, Length(1, 100)]),
      Rule(Description, [NotEmpty, NotNull, Length(2, 300)]),
      Rule(Director, [NotEmpty, NotNull, Length(2, 100)]),
      Rule(Actors, [NotEmpty, NotNull, Length(2, 300)]),
      Rule(ReleaseYear, [LessThan(1 + currentYear), GreaterThan(1900)]),
      Rule(Duration, [DurationFormat, GreaterThan(0)]) ]
  }

  /** CreateMovieDto and UpdateMovieDto have the same properties; one
      datatype stands for both. */
  function MovieFailures(dto: MovieDto, currentYear: int): seq<Failure>
  {
    Failures(CreateMovieRules(currentYear), MovieBody(dto))
  }

  function MovieUpdateFailures(dto: MovieDto, currentYear: int): seq<Failure>
  {
    Failures(UpdateMovieRules(currentYear), MovieBody(dto))
  }

  /** A non-null string, not white space only, of length min..max. */
  predicate TextWithin(s: Option<string>, min: int, max: int)
  {
    s.Some? && !IsNullOrWhiteSpace(s) && min <= |s.value| <= max
  }

  /** The duration rule accepts exactly the positive spans: the format check
      holds for every positive span, so it never decides anything. */
  lemma DurationRuleIsPositivity(ticks: int)
    ensures Passes(DurationFormat, Span(ticks)) && Passes(GreaterThan(0), Span(ticks)) <==> ticks > 0
    ensures ticks > 0 ==> BeValidDurationFormat(ticks)
  {
    if ticks > 0 {
      assert TruncDiv(ticks, TicksPerMinute) >= 0;
      assert TruncDiv(ticks, TicksPerHour) >= 0;
    }
  }

  /** The format check does not even refuse every negative span: minus one
      minute passes it (GreaterThan(Zero) is what refuses it). */
  lemma DurationFormatAcceptsNegativeSpan()
    ensures BeValidDurationFormat(-TicksPerMinute)
    ensures !Passes(GreaterThan(0), Span(-TicksPerMinute))
  {
    assert TruncDiv(-TicksPerHour + TicksPerHour - TicksPerMinute, TicksPerHour) == 0;
  }

  /** A movie is accepted iff its name has 1..100 characters, description
      and actors 2..300, director 2..100, none of them null or blank, its
      release year lies strictly between 1900 and next year, and its
      duration is positive. */
  lemma MovieAccepted(dto: MovieDto, currentYear: int)
    ensures MovieFailures(dto, currentYear) == [] <==>
      && TextWithin(dto.name, 1, 100)
      && TextWithin(dto.description, 2, 300)
      && TextWithin(dto.director, 2, 100)
      && TextWithin(dto.actors, 2, 300)
      && 1900 < dto.releaseYear < currentYear + 1
      && dto.duration > 0
  {
    MovieChains(dto, currentYear);
    TextChainIsTextWithin(dto.name, 1, 100);
    TextChainIsTextWithin(dto.description, 2, 300);
    TextChainIsTextWithin(dto.director, 2, 100);
    TextChainIsTextWithin(dto.actors, 2, 300);
    PairChain(LessThan(1 + currentYear), GreaterThan(1900), Int(dto.releaseYear));
    PairChain(DurationFormat, GreaterThan(0), Span(dto.duration));
    DurationRuleIsPositivity(dto.duration);
  }

  /** The movie validator passes iff each of its six chains does. */
  lemma MovieChains(dto: MovieDto, currentYear: int)
    ensures MovieFailures(dto, currentYear) == [] <==>
      && ChainPasses([NotEmpty, NotNull, Length(1, 100)], Str(dto.name))
      && ChainPasses([NotEmpty, NotNull, Length(2, 300)], Str(dto.description))
      && ChainPasses([NotEmpty, NotNull, Length(2, 100)], Str(dto.director))
      && ChainPasses([NotEmpty, NotNull, Length(2, 300)], Str(dto.actors))
      && ChainPasses([LessThan(1 + currentYear), GreaterThan(1900)], Int(dto.releaseYear))
      && ChainPasses([DurationFormat, GreaterThan(0)], Span(dto.duration))
  {
    var body := MovieBody(dto);
    SixRules(Rule(Name, [NotEmpty, NotNull, Length(1, 100)]),
             Rule(Description, [NotEmpty, NotNull, Length(2, 300)]),
             Rule(Director, [NotEmpty, NotNull, Length(2, 100)]),
             Rule(Actors, [NotEmpty, NotNull, Length(2, 300)]),
             Rule(ReleaseYear, [LessThan(1 + currentYear), GreaterThan(1900)]),
             Rule(Duration, [DurationFormat, GreaterThan(0)]), body);
  }

  /** A six-rule validator passes iff each rule's chain does. */
  lemma SixRules(a: Rule, b: Rule, c: Rule, d: Rule, e: Rule, f: Rule, body: Body)
    ensures Failures([a, b, c, d, e, f], body) == [] <==>
      && ChainPasses(a.checks, Get(body, a.field)) && ChainPasses(b.checks, Get(body, b.field))
      && ChainPasses(c.checks, Get(body, c.field)) && ChainPasses(d.checks, Get(body, d.field))
      && ChainPasses(e.checks, Get(body, e.field)) && ChainPasses(f.checks, Get(body, f.field))
  {
    FailuresCons([a, b, c, d, e, f], body);
    assert [a, b, c, d, e, f][1..] == [b, c, d, e, f];
    FailuresCons([b, c, d, e, f], body);
    assert [b, c, d, e, f][1..] == [c, d, e, f];
    FailuresCons([c, d, e, f], body);
    assert [c, d, e, f][1..] == [d, e, f];
    FailuresCons([d, e, f], body);
    assert [d, e, f][1..] == [e, f];
    FailuresCons([e, f], body);
    assert [e, f][1..] == [f];
    FailuresCons([f], body);
    assert [f][1..] == [];
  }

  /** A validator passes iff its first rule and the remaining ones do. */
  lemma FailuresCons(rules: seq<Rule>, body: Body)
    requires |rules| > 0
    ensures Failures(rules, body) == [] <==>
      ChainPasses(rules[0].checks, Get(body, rules[0].field)) && Failures(rules[1..], body) == []
  {
  }

  /** Every check of a chain accepts the value. */
  predicate ChainPasses(checks: seq<Check>, v: Value)
  {
    forall j | 0 <= j < |checks| :: Passes(checks[j], v)
  }

  /** A chain of two checks passes iff both do. */
  lemma PairChain(a: Check, b: Check, v: Value)
    ensures ChainPasses([a, b], v) <==> Passes(a, v) && Passes(b, v)
  {
    assert [a, b][0] == a && [a, b][1] == b;
  }

  /** NotEmpty().NotNull().Length(min, max) accepts exactly the non-null,
      non-blank strings of length min..max. */
  lemma TextChainIsTextWithin(s: Option<string>, min: int, max: int)
    ensures ChainPasses([NotEmpty, NotNull, Length(min, max)], Str(s)) <==> TextWithin(s, min, max)
  {
    var checks := [NotEmpty, NotNull, Length(min, max)];
    assert ChainPasses(checks, Str(s)) <==>
      Passes(checks[0], Str(s)) && Passes(checks[1], Str(s)) && Passes(checks[2], Str(s));
  }

  /** The create and update validators of each resource impose identical
      rules. */
  lemma CreateAndUpdateRulesAgree(currentYear: int, movie: MovieDto, review: ReviewDto, comment: CommentDto)
    ensures CreateMovieRules(currentYear) == UpdateMovieRules(currentYear)
    ensures CreateReviewRules() == UpdateReviewRules()
    ensures CreateCommentRules() == UpdateCommentRules()
    ensures MovieUpdateFailures(movie, currentYear) == MovieFailures(movie, currentYear)
    ensures ReviewUpdateFailures(review) == ReviewFailures(review)
    ensures CommentUpdateFailures(comment) == CommentFailures(comment)
  {
  }

  // ---------------------------------------------------------------------
  // Reviews and comments

  datatype ReviewDto = ReviewDto(text: Option<string>, evaluation: int)

  datatype CommentDto = CommentDto(text: Option<string>)

  function ReviewValue(dto: ReviewDto, f: Field): Value
  {
    match f
    case Text => Str(dto.text)
    case Evaluation => Int(dto.evaluation)
    case _ => Str(None)
  }

  function CommentValue(dto: CommentDto, f: Field): Value
  {
    match f
    case Text => Str(dto.text)
    case _ => Str(None)
  }

  /** The body of a request, as the validator that reads it sees it. */
  datatype Body = MovieBody(movie: MovieDto) | ReviewBody(review: ReviewDto) | CommentBody(comment: CommentDto)

  /** A property of a request body (a property the DTO lacks reads as null). */
  function Get(body: Body, f: Field): Value
  {
    match body
    case MovieBody(dto) => MovieValue(dto, f)
    case ReviewBody(dto) => ReviewValue(dto, f)
    case CommentBody(dto) => CommentValue(dto, f)
  }

  /** CreateReviewDtoValidator. */
  function CreateReviewRules(): seq<Rule>
  {
    [ Rule(Text, [NotEmpty, NotNull, Length(2, 500)]),
      Rule(Evaluation, [GreaterThan(0), LessThan(11)]) ]
  }

  /** UpdateReviewDtoValidator. */
  function UpdateReviewRules(): seq<Rule>
  {
    [ Rule(Text, [NotEmpty, NotNull, Length(2, 500)]),
      Rule(Evaluation, [GreaterThan(0), LessThan(11)]) ]
  }

  /** CreateCommentDtoValidator. */
  function CreateCommentRules(): seq<Rule>
  {
    [ Rule(Text, [NotEmpty, NotNull, Length(2, 500)]) ]
  }

  /** UpdateCommentDtoValidator. */
  function UpdateCommentRules(): seq<Rule>
  {
    [ Rule(Text, [NotEmpty, NotNull, Length(2, 500)]) ]
  }

  function ReviewFailures(dto: ReviewDto): seq<Failure>
  {
    Failures(CreateReviewRules(), ReviewBody(dto))
  }

  function CommentFailures(dto: CommentDto): seq<Failure>
  {
    Failures(CreateCommentRules(), CommentBody(dto))
  }

  function ReviewUpdateFailures(dto: ReviewDto): seq<Failure>
  {
    Failures(UpdateReviewRules(), ReviewBody(dto))
  }

  function CommentUpdateFailures(dto: CommentDto): seq<Failure>
  {
    Failures(UpdateCommentRules(), CommentBody(dto))
  }

  /** A review is accepted iff its text is non-blank with 2..500 characters
      and its evaluation is one of 1..10. */
  lemma ReviewAccepted(dto: ReviewDto)
    ensures ReviewFailures(dto) == [] <==> TextWithin(dto.text, 2, 500) && 1 <= dto.evaluation <= 10
  {
    var rules := CreateReviewRules();
    var body := ReviewBody(dto);
    TextChainIsTextWithin(dto.text, 2, 500);
    PairChain(GreaterThan(0), LessThan(11), Int(dto.evaluation));
    FailuresCons(rules, body);
    FailuresCons(rules[1..], body);
    assert rules[1..][1..] == [];
  }

  /** A comment is accepted iff its text follows the review-text rule. */
  lemma CommentAccepted(dto: CommentDto)
    ensures CommentFailures(dto) == [] <==> TextWithin(dto.text, 2, 500)
  {
    var rules := CreateCommentRules();
    var body := CommentBody(dto);
    TextChainIsTextWithin(dto.text, 2, 500);
    FailuresCons(rules, body);
    assert rules[1..] == [];
  }

  /** Length alone does not decide a text rule: two spaces have an allowed
      length but are refused as blank. */
  lemma BlankTextRefused()
    ensures !TextWithin(Some("  "), 2, 500)
    ensures CommentFailures(CommentDto(Some("  "))) != []
  {
    TwoSpacesAreBlank();
    CommentAccepted(CommentDto(Some("  ")));
  }

  lemma TwoSpacesAreBlank()
    ensures IsNullOrWhiteSpace(Some("  "))
  {
    assert IsDotNetWhiteSpace("  "[0]) && IsDotNetWhiteSpace("  "[1]);
  }

  // ---------------------------------------------------------------------
  // The problem result (ProblemDetailsResultFactory)

  /** RFC 4918, section 11.2 (422 Unprocessable Entity). */
  datatype Problem = Problem(status: int, title: string, typeUri: string, errors: seq<Failure>)

  /** The endpoint filter: a request with any failure is answered with a 422
      problem listing the failures; otherwise the handler runs. */
  function ValidationProblem(failures: seq<Failure>): (r: Option<Problem>)
    ensures r.Some? <==> failures != []
    ensures r.Some? ==> r.value.status == 422 && r.value.errors == failures
  {
    if failures == [] then None
    else Some(Problem(422, "Unprocessable Entity", "https://tools.ietf.org/html/rfc4918#section-11.2", failures))
  }
}
