/** The HTML form branch's mutable `MainProps` record and its `dohash` update. */
module Form {
  import opened Wrappers
  import opened Casing
  import opened RequestOptions

  /** The problem categories of `MainProps.problems`. */
  datatype ProblemKey = HashUuid | UuidV4

  datatype ProblemKind = Error

  /** One diagnostic shown next to a form section. */
  datatype Problem = Problem(kind: ProblemKind, message: string)

  /** A value snapshot of `MainProps`, the record handed to the renderer. */
  datatype Props = Props(
    uppercase: bool,
    uuidVersion: Version,
    uuidHashNS: string,
    uuidHashName: string,
    resultHash: string,
    resultRando: string,
    currentYear: int,
    problems: map<ProblemKey, seq<Problem>>)

  /** `problems.get(key) || []`. */
  function ProblemsAt(problems: map<ProblemKey, seq<Problem>>, key: ProblemKey): (r: seq<Problem>)
    ensures key !in problems ==> r == []
    ensures key in problems ==> r == problems[key]
  {
    if key in problems then problems[key] else []
  }

  /** The problem recorded for a namespace that fails validation (no quotes,
      unlike the API's message). */
  function InvalidNamespaceProblem(ns: string): (p: Problem) {
    Problem(Error, "invalid uuid: " + ns)
  }

  /** The record as first built from the request's options. */
  function InitialProps(opts: Options, year: int): (p: Props) {
    Props(opts.uppercase, opts.uuidVersion, opts.uuidHashNS, opts.uuidHashName, "", "", year, map[])
  }

  /** What `dohash(fn)` does to the record: nothing when namespace or name is
      empty; otherwise either one problem appended under `hash_uuid` or
      `resultHash` set; `Failure` when `fn` throws. No other field changes. */
  function DoHashSpec(p: Props, fn: (string, string) -> Result<string, string>, validate: string -> bool): (r: Result<Props, string>)
    ensures p.uuidHashNS == "" || p.uuidHashName == "" ==> r == Success(p)
    ensures r.Success? ==> r.value == p.(resultHash := r.value.resultHash, problems := r.value.problems)
    ensures r.Success? && p.uuidHashNS != "" && p.uuidHashName != "" ==>
      if validate(p.uuidHashNS) then
        && fn(p.uuidHashName, p.uuidHashNS).Success?
        && r.value.problems == p.problems
        && r.value.resultHash == ConditionUppercase(p.uppercase, fn(p.uuidHashName, p.uuidHashNS).value)
      else
        && r.value.resultHash == p.resultHash
        && r.value.problems.Keys == p.problems.Keys + {HashUuid}
        && r.value.problems[HashUuid] == ProblemsAt(p.problems, HashUuid) + [InvalidNamespaceProblem(p.uuidHashNS)]
        && forall k :: k in p.problems && k != HashUuid ==> r.value.problems[k] == p.problems[k]
    ensures r.Failure? <==>
      p.uuidHashNS != "" && p.uuidHashName != "" && validate(p.uuidHashNS) &&
      fn(p.uuidHashName, p.uuidHashNS).Failure?
    ensures r.Failure? ==> r.error == fn(p.uuidHashName, p.uuidHashNS).error
  {
    if p.uuidHashNS == "" || p.uuidHashName == "" then Success(p)
    else
      var ns, name := p.uuidHashNS, p.uuidHashName;
      if !validate(ns) then
        Success(p.(problems := p.problems[HashUuid := ProblemsAt(p.problems, HashUuid) + [InvalidNamespaceProblem(ns)]]))
      else
        match fn(name, ns)
        case Failure(e) => Failure(e)
        case Success(h) => Success(p.(resultHash := ConditionUppercase(p.uppercase, h)))
  }

  /** The `MainProps` record of the form branch, updated in place. */
  class MainProps {
    var uppercase: bool
    var uuidVersion: Version
    var uuidHashNS: string
    var uuidHashName: string
    var resultHash: string
    var resultRando: string
    var currentYear: int
    var problems: map<ProblemKey, seq<Problem>>

    /** The record's current value. */
    function Snapshot(): (p: Props)
      reads this
    {
      Props(uppercase, uuidVersion, uuidHashNS, uuidHashName, resultHash, resultRando, currentYear, problems)
    }

    /** The record literal of the form branch: options copied, results empty,
        no problems. */
    constructor (opts: Options, year: int)
      ensures Snapshot() == InitialProps(opts, year)
    {
      uppercase := opts.uppercase;
      uuidVersion := opts.uuidVersion;
      uuidHashNS := opts.uuidHashNS;
      uuidHashName := opts.uuidHashName;
      resultHash := "";
      resultRando := "";
      currentYear := year;
      problems := map[];
    }

    /** The `dohash(fn)` closure over this record. `thrown` is the error `fn`
        threw, if any; the record then is as before. */
    method DoHash(fn: (string, string) -> Result<string, string>, validate: string -> bool) returns (thrown: Option<string>)
      modifies this
      ensures DoHashSpec(old(Snapshot()), fn, validate).Success? ==>
        thrown == None && Snapshot() == DoHashSpec(old(Snapshot()), fn, validate).value
      ensures DoHashSpec(old(Snapshot()), fn, validate).Failure? ==>
        thrown == Some(DoHashSpec(old(Snapshot()), fn, validate).error) && Snapshot() == old(Snapshot())
    {
      thrown := None;
      if uuidHashNS == "" || uuidHashName == "" {
        return;
      }
      var ns, name := uuidHashNS, uuidHashName;
      if !validate(ns) {
        problems := problems[HashUuid := ProblemsAt(problems, HashUuid) + [InvalidNamespaceProblem(ns)]];
      } else {
        var h := fn(name, ns);
        if h.Failure? {
          thrown := Some(h.error);
          return;
        }
        resultHash := ConditionUppercase(uppercase, h.value);
      }
    }
  }
}
