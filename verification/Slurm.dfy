/** collectors/slurmCgroupMetric.go: distributing the values of each job over its CPUs, and zeros for idle CPUs. */
module Slurm {
  import opened Common
  import CpuList
  import opened Sequences
  import opened Text

  datatype Name = MemUsed | MaxMemUsed | MemLimit | UserCpu | SysCpu

  datatype Message = Message(name: Name, cpu: int, value: real)

  /** What can be read and parsed of the files of one job; cpuStat holds the lines with a name and a number. */
  datatype JobFiles = JobFiles(
    memoryCurrent: Option<real>, memoryPeak: Option<real>, memoryMax: Option<real>,
    cpuStat: seq<(string, real)>, cpusetCpus: Option<string>)

  datatype JobData = JobData(
    memoryUsage: real, maxMemoryUsage: real, limitMemoryUsage: real, cpuUsageUser: real, cpuUsageSys: real,
    cpuSet: seq<int>)

  function ValueOr<T>(o: Option<T>, default: T): T {
    match o
    case Some(v) => v
    case None => default
  }

  /** The last value with that name, 0 if there is none. */
  function Stat(lines: seq<(string, real)>, name: string): real {
    if lines == [] then 0.0
    else if lines[|lines| - 1].0 == name then lines[|lines| - 1].1
    else Stat(lines[..|lines| - 1], name)
  }

  /** A share of the CPU time in percent; 0 if no time was used. */
  function Percent(part: real, usage: real): real {
    if usage > 0.0 then part * 100.0 / usage else 0.0
  }

  function JobOf(f: JobFiles): JobData {
    JobData(
      ValueOr(f.memoryCurrent, 0.0), ValueOr(f.memoryPeak, 0.0), ValueOr(f.memoryMax, 0.0),
      Percent(Stat(f.cpuStat, "user_usec"), Stat(f.cpuStat, "usage_usec")),
      Percent(Stat(f.cpuStat, "system_usec"), Stat(f.cpuStat, "usage_usec")),
      match f.cpusetCpus
      case Some(s) => ValueOr(CpuList.CpuSet(TrimSpace(s)), [])
      case None => [])
  }

  function JobsOf(files: seq<JobFiles>): (jobs: seq<JobData>) {
    seq(|files|, i requires 0 <= i < |files| => JobOf(files[i]))
  }

  function Field(job: JobData, n: Name): real {
    match n
    case MemUsed => job.memoryUsage
    case MaxMemUsed => job.maxMemoryUsage
    case MemLimit => job.limitMemoryUsage
    case UserCpu => job.cpuUsageUser
    case SysCpu => job.cpuUsageSys
  }

  function Share(job: JobData, n: Name): real
    requires job.cpuSet != []
  {
    Field(job, n) / |job.cpuSet| as real
  }

  function ShareOf(job: JobData): Name -> real
    requires job.cpuSet != []
  {
    n => Share(job, n)
  }

  /** v added up k times. */
  function Times(k: nat, v: real): real {
    if k == 0 then 0.0 else Times(k - 1, v) + v
  }

  function Zeros(): Name -> real {
    n => 0.0
  }

  // ----- observing the messages -----

  function Count(out: seq<Message>, n: Name, cpu: int): nat {
    if out == [] then 0
    else
      var m := out[|out| - 1];
      Count(out[..|out| - 1], n, cpu) + if m.name == n && m.cpu == cpu then 1 else 0
  }

  function Sum(out: seq<Message>, n: Name): real {
    if out == [] then 0.0
    else
      var m := out[|out| - 1];
      Sum(out[..|out| - 1], n) + if m.name == n then m.value else 0.0
  }

  /** What one CPU gets of a metric. */
  function SumFor(out: seq<Message>, n: Name, cpu: int): real {
    if out == [] then 0.0
    else
      var m := out[|out| - 1];
      SumFor(out[..|out| - 1], n, cpu) + if m.name == n && m.cpu == cpu then m.value else 0.0
  }

  /** A measure of messages that adds up; the three above are. */
  ghost predicate Additive(f: seq<Message> -> real) {
    && f([]) == 0.0
    && forall a: seq<Message>, b: seq<Message> {:trigger f(a + b)} :: f(a + b) == f(a) + f(b)
  }

  lemma {:induction false} CountBoth(a: seq<Message>, b: seq<Message>, n: Name, cpu: int)
    ensures Count(a + b, n, cpu) == Count(a, n, cpu) + Count(b, n, cpu)
  {
    if b == [] {
      assert a + b == a;
    } else {
      var k := |b| - 1;
      assert (a + b)[..|a| + k] == a + b[..k];
      CountBoth(a, b[..k], n, cpu);
    }
  }

  lemma {:induction false} SumBoth(a: seq<Message>, b: seq<Message>, n: Name)
    ensures Sum(a + b, n) == Sum(a, n) + Sum(b, n)
  {
    if b == [] {
      assert a + b == a;
    } else {
      var k := |b| - 1;
      assert (a + b)[..|a| + k] == a + b[..k];
      SumBoth(a, b[..k], n);
    }
  }

  lemma {:induction false} SumForBoth(a: seq<Message>, b: seq<Message>, n: Name, cpu: int)
    ensures SumFor(a + b, n, cpu) == SumFor(a, n, cpu) + SumFor(b, n, cpu)
  {
    if b == [] {
      assert a + b == a;
    } else {
      var k := |b| - 1;
      assert (a + b)[..|a| + k] == a + b[..k];
      SumForBoth(a, b[..k], n, cpu);
    }
  }

  function CountOf(n: Name, cpu: int): seq<Message> -> real {
    out => Count(out, n, cpu) as real
  }

  function SumOf(n: Name): seq<Message> -> real {
    out => Sum(out, n)
  }

  function SumForOf(n: Name, cpu: int): seq<Message> -> real {
    out => SumFor(out, n, cpu)
  }

  lemma AllAdditive(n: Name, cpu: int)
    ensures Additive(CountOf(n, cpu)) && Additive(SumOf(n)) && Additive(SumForOf(n, cpu))
  {
    forall a: seq<Message>, b: seq<Message>
      ensures Count(a + b, n, cpu) == Count(a, n, cpu) + Count(b, n, cpu)
      ensures Sum(a + b, n) == Sum(a, n) + Sum(b, n)
      ensures SumFor(a + b, n, cpu) == SumFor(a, n, cpu) + SumFor(b, n, cpu)
    {
      CountBoth(a, b, n, cpu);
      SumBoth(a, b, n);
      SumForBoth(a, b, n, cpu);
    }
  }

  lemma OneMessage(m: Message, n: Name, cpu: int)
    ensures CountOf(n, cpu)([m]) == if m.name == n && m.cpu == cpu then 1.0 else 0.0
    ensures SumOf(n)([m]) == if m.name == n then m.value else 0.0
    ensures SumForOf(n, cpu)([m]) == if m.name == n && m.cpu == cpu then m.value else 0.0
  {
    var out := [m];
    assert out[..|out| - 1] == [] && out[|out| - 1] == m;
    assert Count(out, n, cpu) == Count([], n, cpu) + if m.name == n && m.cpu == cpu then 1 else 0;
    assert Sum(out, n) == Sum([], n) + if m.name == n then m.value else 0.0;
    assert SumFor(out, n, cpu) == SumFor([], n, cpu) + if m.name == n && m.cpu == cpu then m.value else 0.0;
  }

  // ----- specification -----

  /** The message of one CPU for one metric. */
  function ForName(n: Name, cpu: int, value: Name -> real, excluded: set<Name>): seq<Message> {
    if n in excluded then [] else [Message(n, cpu, value(n))]
  }

  lemma AndName(out: seq<Message>, n: Name, cpu: int, value: Name -> real, excluded: set<Name>)
    ensures out + ForName(n, cpu, value, excluded) == if n in excluded then out else out + [Message(n, cpu, value(n))]
  {
  }

  function ForCpu(cpu: int, value: Name -> real, excluded: set<Name>): seq<Message> {
    ForName(MemUsed, cpu, value, excluded) + ForName(MaxMemUsed, cpu, value, excluded)
    + ForName(MemLimit, cpu, value, excluded) + ForName(UserCpu, cpu, value, excluded)
    + ForName(SysCpu, cpu, value, excluded)
  }

  /** The same value for each of some CPUs. */
  function ForCpus(cpus: seq<int>, value: Name -> real, excluded: set<Name>): seq<Message> {
    if cpus == [] then []
    else
      ForCpus(cpus[..|cpus| - 1], value, excluded) + ForCpu(cpus[|cpus| - 1], value, excluded)
  }

  function ForJob(job: JobData, excluded: set<Name>): seq<Message> {
    if job.cpuSet == [] then [] else ForCpus(job.cpuSet, ShareOf(job), excluded)
  }

  function ForJobs(jobs: seq<JobData>, excluded: set<Name>): seq<Message> {
    if jobs == [] then [] else ForJobs(jobs[..|jobs| - 1], excluded) + ForJob(jobs[|jobs| - 1], excluded)
  }

  /** The CPUs of all jobs, as often as they are listed. */
  function JobCpus(jobs: seq<JobData>): multiset<int> {
    if jobs == [] then multiset{} else JobCpus(jobs[..|jobs| - 1]) + multiset(jobs[|jobs| - 1].cpuSet)
  }

  function Idle(cpus: seq<int>, jobs: seq<JobData>): seq<int> {
    if cpus == [] then []
    else
      var c := cpus[|cpus| - 1];
      Idle(cpus[..|cpus| - 1], jobs) + if c in JobCpus(jobs) then [] else [c]
  }

  function Output(jobs: seq<JobData>, allCPUs: seq<int>, excluded: set<Name>): seq<Message> {
    ForJobs(jobs, excluded) + ForCpus(Idle(allCPUs, jobs), Zeros(), excluded)
  }

  // ----- measuring the output, for any measure that adds up -----

  lemma CpuMeasure(f: seq<Message> -> real, w: Name -> real, cpu: int, value: Name -> real, excluded: set<Name>)
    requires Additive(f) && forall n :: f(ForName(n, cpu, value, excluded)) == w(n)
    ensures f(ForCpu(cpu, value, excluded)) == w(MemUsed) + w(MaxMemUsed) + w(MemLimit) + w(UserCpu) + w(SysCpu)
  {
  }

  function Over(cpus: seq<int>, u: int -> real): real {
    if cpus == [] then 0.0 else Over(cpus[..|cpus| - 1], u) + u(cpus[|cpus| - 1])
  }

  lemma {:induction false} CpusMeasure(
    f: seq<Message> -> real, u: int -> real, cpus: seq<int>, value: Name -> real, excluded: set<Name>)
    requires Additive(f) && forall c :: f(ForCpu(c, value, excluded)) == u(c)
    ensures f(ForCpus(cpus, value, excluded)) == Over(cpus, u)
  {
    if cpus != [] {
      CpusMeasure(f, u, cpus[..|cpus| - 1], value, excluded);
    }
  }

  function OverJobs(jobs: seq<JobData>, t: JobData -> real): real {
    if jobs == [] then 0.0 else OverJobs(jobs[..|jobs| - 1], t) + t(jobs[|jobs| - 1])
  }

  lemma {:induction false} JobsMeasure(
    f: seq<Message> -> real, t: JobData -> real, jobs: seq<JobData>, excluded: set<Name>)
    requires Additive(f) && forall job :: f(ForJob(job, excluded)) == t(job)
    ensures f(ForJobs(jobs, excluded)) == OverJobs(jobs, t)
  {
    if jobs != [] {
      JobsMeasure(f, t, jobs[..|jobs| - 1], excluded);
    }
  }

  lemma OutputMeasure(
    f: seq<Message> -> real, t: JobData -> real, jobs: seq<JobData>, allCPUs: seq<int>, excluded: set<Name>)
    requires Additive(f) && forall job :: f(ForJob(job, excluded)) == t(job)
    ensures f(Output(jobs, allCPUs, excluded))
         == OverJobs(jobs, t) + f(ForCpus(Idle(allCPUs, jobs), Zeros(), excluded))
  {
    JobsMeasure(f, t, jobs, excluded);
  }

  lemma {:induction false} OverOne(cpus: seq<int>, u: int -> real, cpu: int, x: real)
    requires forall c :: u(c) == if c == cpu then x else 0.0
    ensures Over(cpus, u) == Times(multiset(cpus)[cpu], x)
  {
    if cpus != [] {
      var k := |cpus| - 1;
      assert cpus == cpus[..k] + [cpus[k]];
      OverOne(cpus[..k], u, cpu, x);
      assert multiset(cpus)[cpu] == multiset(cpus[..k])[cpu] + if cpus[k] == cpu then 1 else 0;
    }
  }

  lemma {:induction false} OverAll(cpus: seq<int>, u: int -> real, x: real)
    requires forall c :: u(c) == x
    ensures Over(cpus, u) == Times(|cpus|, x)
  {
    if cpus != [] {
      OverAll(cpus[..|cpus| - 1], u, x);
    }
  }

  /** The sum over the jobs that have CPUs. */
  function Distributed(jobs: seq<JobData>, n: Name): real {
    OverJobs(jobs, (job: JobData) => FieldIfCpus(job, n))
  }

  function FieldIfCpus(job: JobData, n: Name): real {
    if job.cpuSet == [] then 0.0 else Field(job, n)
  }

  function TimesListed(job: JobData, cpu: int): real {
    multiset(job.cpuSet)[cpu] as real
  }

  /** The shares one CPU has in the jobs. */
  function Shares(jobs: seq<JobData>, n: Name, cpu: int): real {
    OverJobs(jobs, (job: JobData) => SharesOf(job, n, cpu))
  }

  function SharesOf(job: JobData, n: Name, cpu: int): real {
    if job.cpuSet == [] then 0.0 else Times(multiset(job.cpuSet)[cpu], Share(job, n))
  }

  lemma {:induction false} TimesIsProduct(k: nat, v: real)
    ensures Times(k, v) == k as real * v
  {
    if k > 0 { TimesIsProduct(k - 1, v); }
  }

  /** The shares of a job add up to its value. */
  lemma AllShares(job: JobData, n: Name)
    requires job.cpuSet != []
    ensures Times(|job.cpuSet|, Share(job, n)) == Field(job, n)
  {
    TimesIsProduct(|job.cpuSet|, Share(job, n));
  }

  // ----- what the three measures give -----

  lemma NameCount(m: Name, c: int, value: Name -> real, excluded: set<Name>, n: Name, cpu: int)
    ensures CountOf(n, cpu)(ForName(m, c, value, excluded)) == if m == n && n !in excluded && c == cpu then 1.0 else 0.0
  {
    OneMessage(Message(m, c, value(m)), n, cpu);
  }

  lemma CpuCount(c: int, value: Name -> real, excluded: set<Name>, n: Name, cpu: int)
    ensures CountOf(n, cpu)(ForCpu(c, value, excluded)) == if n !in excluded && c == cpu then 1.0 else 0.0
  {
    var w := (m: Name) => if m == n && n !in excluded && c == cpu then 1.0 else 0.0;
    AllAdditive(n, cpu);
    forall m: Name ensures CountOf(n, cpu)(ForName(m, c, value, excluded)) == w(m) {
      NameCount(m, c, value, excluded, n, cpu);
    }
    CpuMeasure(CountOf(n, cpu), w, c, value, excluded);
  }

  lemma CpusCount(cpus: seq<int>, value: Name -> real, excluded: set<Name>, n: Name, cpu: int)
    ensures CountOf(n, cpu)(ForCpus(cpus, value, excluded))
         == if n !in excluded then multiset(cpus)[cpu] as real else 0.0
  {
    var x := if n !in excluded then 1.0 else 0.0;
    var u := (c: int) => if c == cpu then x else 0.0;
    AllAdditive(n, cpu);
    forall c ensures CountOf(n, cpu)(ForCpu(c, value, excluded)) == u(c) {
      CpuCount(c, value, excluded, n, cpu);
    }
    CpusMeasure(CountOf(n, cpu), u, cpus, value, excluded);
    OverOne(cpus, u, cpu, x);
    TimesIsProduct(multiset(cpus)[cpu], x);
  }

  lemma JobCount(job: JobData, excluded: set<Name>, n: Name, cpu: int)
    ensures CountOf(n, cpu)(ForJob(job, excluded)) == if n !in excluded then TimesListed(job, cpu) else 0.0
  {
    if job.cpuSet != [] {
      CpusCount(job.cpuSet, ShareOf(job), excluded, n, cpu);
    }
  }

  lemma NameSum(m: Name, c: int, value: Name -> real, excluded: set<Name>, n: Name)
    ensures SumOf(n)(ForName(m, c, value, excluded)) == if m == n && n !in excluded then value(n) else 0.0
  {
    OneMessage(Message(m, c, value(m)), n, 0);
  }

  lemma CpuSum(c: int, value: Name -> real, excluded: set<Name>, n: Name)
    ensures SumOf(n)(ForCpu(c, value, excluded)) == if n !in excluded then value(n) else 0.0
  {
    var w := (m: Name) => if m == n && n !in excluded then value(n) else 0.0;
    AllAdditive(n, 0);
    forall m: Name ensures SumOf(n)(ForName(m, c, value, excluded)) == w(m) {
      NameSum(m, c, value, excluded, n);
    }
    CpuMeasure(SumOf(n), w, c, value, excluded);
  }

  lemma CpusSum(cpus: seq<int>, value: Name -> real, excluded: set<Name>, n: Name)
    ensures SumOf(n)(ForCpus(cpus, value, excluded)) == if n !in excluded then Times(|cpus|, value(n)) else 0.0
  {
    var x := if n !in excluded then value(n) else 0.0;
    var u := (c: int) => x;
    AllAdditive(n, 0);
    forall c ensures SumOf(n)(ForCpu(c, value, excluded)) == u(c) {
      CpuSum(c, value, excluded, n);
    }
    CpusMeasure(SumOf(n), u, cpus, value, excluded);
    OverAll(cpus, u, x);
    TimesIsProduct(|cpus|, 0.0);
  }

  lemma JobSum(job: JobData, excluded: set<Name>, n: Name)
    ensures SumOf(n)(ForJob(job, excluded)) == if n !in excluded then FieldIfCpus(job, n) else 0.0
  {
    if job.cpuSet != [] {
      CpusSum(job.cpuSet, ShareOf(job), excluded, n);
      AllShares(job, n);
    }
  }

  lemma NameSumFor(m: Name, c: int, value: Name -> real, excluded: set<Name>, n: Name, cpu: int)
    ensures SumForOf(n, cpu)(ForName(m, c, value, excluded))
         == if m == n && n !in excluded && c == cpu then value(n) else 0.0
  {
    OneMessage(Message(m, c, value(m)), n, cpu);
  }

  lemma CpuSumFor(c: int, value: Name -> real, excluded: set<Name>, n: Name, cpu: int)
    ensures SumForOf(n, cpu)(ForCpu(c, value, excluded)) == if n !in excluded && c == cpu then value(n) else 0.0
  {
    var w := (m: Name) => if m == n && n !in excluded && c == cpu then value(n) else 0.0;
    AllAdditive(n, cpu);
    forall m: Name ensures SumForOf(n, cpu)(ForName(m, c, value, excluded)) == w(m) {
      NameSumFor(m, c, value, excluded, n, cpu);
    }
    CpuMeasure(SumForOf(n, cpu), w, c, value, excluded);
  }

  lemma CpusSumFor(cpus: seq<int>, value: Name -> real, excluded: set<Name>, n: Name, cpu: int)
    ensures SumForOf(n, cpu)(ForCpus(cpus, value, excluded))
         == if n !in excluded then Times(multiset(cpus)[cpu], value(n)) else 0.0
  {
    var x := if n !in excluded then value(n) else 0.0;
    var u := (c: int) => if c == cpu then x else 0.0;
    AllAdditive(n, cpu);
    forall c ensures SumForOf(n, cpu)(ForCpu(c, value, excluded)) == u(c) {
      CpuSumFor(c, value, excluded, n, cpu);
    }
    CpusMeasure(SumForOf(n, cpu), u, cpus, value, excluded);
    OverOne(cpus, u, cpu, x);
    TimesIsProduct(multiset(cpus)[cpu], 0.0);
  }

  lemma JobSumFor(job: JobData, excluded: set<Name>, n: Name, cpu: int)
    ensures SumForOf(n, cpu)(ForJob(job, excluded)) == if n !in excluded then SharesOf(job, n, cpu) else 0.0
  {
    if job.cpuSet != [] {
      CpusSumFor(job.cpuSet, ShareOf(job), excluded, n, cpu);
    }
  }

  lemma {:induction false} OverJobCpus(jobs: seq<JobData>, t: JobData -> real, cpu: int)
    requires forall job :: t(job) == TimesListed(job, cpu)
    ensures OverJobs(jobs, t) == JobCpus(jobs)[cpu] as real
  {
    if jobs != [] {
      OverJobCpus(jobs[..|jobs| - 1], t, cpu);
    }
  }

  lemma {:induction false} OverNothing(jobs: seq<JobData>, t: JobData -> real)
    requires forall job :: t(job) == 0.0
    ensures OverJobs(jobs, t) == 0.0
  {
    if jobs != [] {
      OverNothing(jobs[..|jobs| - 1], t);
    }
  }

  lemma {:induction false} IdleOnes(cpus: seq<int>, jobs: seq<JobData>, c: int)
    ensures multiset(Idle(cpus, jobs))[c] == if c in JobCpus(jobs) then 0 else multiset(cpus)[c]
  {
    if cpus != [] {
      var k := |cpus| - 1;
      assert cpus == cpus[..k] + [cpus[k]];
      IdleOnes(cpus[..k], jobs, c);
    }
  }

  // ----- main results -----

  /** The values sent for a metric add up to the values of all jobs that have CPUs; zeros for idle CPUs add nothing. */
  lemma JobValuesConserved(jobs: seq<JobData>, allCPUs: seq<int>, excluded: set<Name>, n: Name)
    requires n !in excluded
    ensures Sum(Output(jobs, allCPUs, excluded), n) == Distributed(jobs, n)
  {
    var t := (job: JobData) => FieldIfCpus(job, n);
    AllAdditive(n, 0);
    forall job ensures SumOf(n)(ForJob(job, excluded)) == t(job) {
      JobSum(job, excluded, n);
    }
    OutputMeasure(SumOf(n), t, jobs, allCPUs, excluded);
    CpusSum(Idle(allCPUs, jobs), Zeros(), excluded, n);
    TimesIsProduct(|Idle(allCPUs, jobs)|, 0.0);
  }

  lemma CountAll(jobs: seq<JobData>, allCPUs: seq<int>, excluded: set<Name>, n: Name, cpu: int)
    requires n !in excluded
    ensures CountOf(n, cpu)(Output(jobs, allCPUs, excluded))
         == JobCpus(jobs)[cpu] as real + multiset(Idle(allCPUs, jobs))[cpu] as real
  {
    var t := (job: JobData) => TimesListed(job, cpu);
    var idle := Idle(allCPUs, jobs);
    AllAdditive(n, cpu);
    forall job ensures CountOf(n, cpu)(ForJob(job, excluded)) == t(job) {
      JobCount(job, excluded, n, cpu);
    }
    OutputMeasure(CountOf(n, cpu), t, jobs, allCPUs, excluded);
    CpusCount(idle, Zeros(), excluded, n, cpu);
    OverJobCpus(jobs, t, cpu);
  }

  lemma CountExcluded(jobs: seq<JobData>, allCPUs: seq<int>, excluded: set<Name>, n: Name, cpu: int)
    requires n in excluded
    ensures CountOf(n, cpu)(Output(jobs, allCPUs, excluded)) == 0.0
  {
    var t := (job: JobData) => 0.0;
    AllAdditive(n, cpu);
    forall job ensures CountOf(n, cpu)(ForJob(job, excluded)) == t(job) {
      JobCount(job, excluded, n, cpu);
    }
    OutputMeasure(CountOf(n, cpu), t, jobs, allCPUs, excluded);
    CpusCount(Idle(allCPUs, jobs), Zeros(), excluded, n, cpu);
    OverNothing(jobs, t);
  }

  /** How often a CPU gets a metric. */
  lemma CpuReceives(jobs: seq<JobData>, allCPUs: seq<int>, excluded: set<Name>, n: Name, cpu: int)
    ensures Count(Output(jobs, allCPUs, excluded), n, cpu) ==
      if n in excluded then 0
      else if cpu in JobCpus(jobs) then JobCpus(jobs)[cpu]
      else multiset(allCPUs)[cpu]
  {
    IdleOnes(allCPUs, jobs, cpu);
    if n in excluded {
      CountExcluded(jobs, allCPUs, excluded, n, cpu);
    } else {
      CountAll(jobs, allCPUs, excluded, n, cpu);
    }
  }

  /** The values a CPU gets of a metric add up to its shares in the jobs; an idle CPU gets zero. */
  lemma CpuShares(jobs: seq<JobData>, allCPUs: seq<int>, excluded: set<Name>, n: Name, cpu: int)
    requires n !in excluded
    ensures SumFor(Output(jobs, allCPUs, excluded), n, cpu) == Shares(jobs, n, cpu)
  {
    var t := (job: JobData) => SharesOf(job, n, cpu);
    var idle := Idle(allCPUs, jobs);
    AllAdditive(n, cpu);
    forall job ensures SumForOf(n, cpu)(ForJob(job, excluded)) == t(job) {
      JobSumFor(job, excluded, n, cpu);
    }
    OutputMeasure(SumForOf(n, cpu), t, jobs, allCPUs, excluded);
    CpusSumFor(idle, Zeros(), excluded, n, cpu);
    TimesIsProduct(multiset(idle)[cpu], 0.0);
  }

  /** Every online CPU gets every metric; exactly once exactly if no online CPU is listed twice by the jobs. */
  lemma EveryCpuOnce(jobs: seq<JobData>, allCPUs: seq<int>, excluded: set<Name>, n: Name)
    requires n !in excluded && NoDuplicates(allCPUs)
    ensures forall cpu :: cpu in allCPUs ==> Count(Output(jobs, allCPUs, excluded), n, cpu) >= 1
    ensures (forall cpu :: cpu in allCPUs ==> Count(Output(jobs, allCPUs, excluded), n, cpu) == 1)
       <==> (forall cpu :: cpu in allCPUs ==> JobCpus(jobs)[cpu] <= 1)
  {
    CountsOf(allCPUs);
    forall cpu | cpu in allCPUs
      ensures Count(Output(jobs, allCPUs, excluded), n, cpu) ==
              if JobCpus(jobs)[cpu] == 0 then 1 else JobCpus(jobs)[cpu]
    {
      CpuReceives(jobs, allCPUs, excluded, n, cpu);
      assert cpu in multiset(allCPUs);
    }
  }

  // ----- from the files of the jobs to the messages -----

  /** The last line with that name, if there is one. */
  ghost predicate IsLast(lines: seq<(string, real)>, name: string, i: nat) {
    i < |lines| && lines[i].0 == name && forall j :: i < j < |lines| ==> lines[j].0 != name
  }

  lemma {:induction false} StatIsLast(lines: seq<(string, real)>, name: string, i: nat)
    requires IsLast(lines, name, i)
    ensures Stat(lines, name) == lines[i].1
  {
    var n := |lines| - 1;
    if i < n {
      StatIsLast(lines[..n], name, i);
    }
  }

  lemma {:induction false} NoStat(lines: seq<(string, real)>, name: string)
    requires forall i :: 0 <= i < |lines| ==> lines[i].0 != name
    ensures Stat(lines, name) == 0.0
  {
    if lines != [] {
      NoStat(lines[..|lines| - 1], name);
    }
  }

  /** What the files of a job say about a metric. The two shares of the CPU time are percentages of the usage. */
  ghost predicate Measures(f: JobFiles, n: Name, v: real) {
    match n
    case MemUsed => v == if f.memoryCurrent.Some? then f.memoryCurrent.value else 0.0
    case MaxMemUsed => v == if f.memoryPeak.Some? then f.memoryPeak.value else 0.0
    case MemLimit => v == if f.memoryMax.Some? then f.memoryMax.value else 0.0
    case UserCpu => IsPercentage(v, Stat(f.cpuStat, "user_usec"), Stat(f.cpuStat, "usage_usec"))
    case SysCpu => IsPercentage(v, Stat(f.cpuStat, "system_usec"), Stat(f.cpuStat, "usage_usec"))
  }

  predicate IsPercentage(v: real, part: real, usage: real) {
    if usage > 0.0 then v * usage == 100.0 * part else v == 0.0
  }

  lemma PercentIs(part: real, usage: real)
    ensures IsPercentage(Percent(part, usage), part, usage)
  {
  }

  lemma FieldMeasures(f: JobFiles, n: Name)
    ensures Measures(f, n, Field(JobOf(f), n))
  {
    PercentIs(Stat(f.cpuStat, "user_usec"), Stat(f.cpuStat, "usage_usec"));
    PercentIs(Stat(f.cpuStat, "system_usec"), Stat(f.cpuStat, "usage_usec"));
    hide Stat, Percent;
  }

  /** The CPUs of a job: those its file lists, none if the file is missing or malformed. */
  function CpusOf(f: JobFiles): seq<int> {
    if f.cpusetCpus.None? || CpuList.CpuSet(TrimSpace(f.cpusetCpus.value)).None? then []
    else CpuList.CpuSet(TrimSpace(f.cpusetCpus.value)).value
  }

  function SumOfAll(values: seq<real>): real {
    if values == [] then 0.0 else SumOfAll(values[..|values| - 1]) + values[|values| - 1]
  }

  lemma DistributedNext(jobs: seq<JobData>, n: Name)
    requires jobs != []
    ensures var k := |jobs| - 1; Distributed(jobs, n) == Distributed(jobs[..k], n) + FieldIfCpus(jobs[k], n)
  {
  }

  lemma {:induction false} DistributedValues(files: seq<JobFiles>, n: Name, values: seq<real>)
    requires |values| == |files|
    requires forall i :: 0 <= i < |files| ==> values[i] == FieldIfCpus(JobOf(files[i]), n)
    ensures Distributed(JobsOf(files), n) == SumOfAll(values)
  {
    if files != [] {
      var k := |files| - 1;
      DistributedValues(files[..k], n, values[..k]);
      assert JobsOf(files)[..k] == JobsOf(files[..k]);
      DistributedNext(JobsOf(files), n);
      hide JobOf;
    }
  }

  /** The values sent for a metric add up to what the files of the jobs with CPUs measure. */
  lemma FilesConserved(files: seq<JobFiles>, allCPUs: seq<int>, excluded: set<Name>, n: Name)
    returns (values: seq<real>)
    requires n !in excluded
    ensures |values| == |files|
    ensures forall i :: 0 <= i < |files| ==>
      if CpusOf(files[i]) == [] then values[i] == 0.0 else Measures(files[i], n, values[i])
    ensures Sum(Output(JobsOf(files), allCPUs, excluded), n) == SumOfAll(values)
  {
    values := seq(|files|, i requires 0 <= i < |files| => FieldIfCpus(JobOf(files[i]), n));
    JobValuesConserved(JobsOf(files), allCPUs, excluded, n);
    DistributedValues(files, n, values);
    forall i | 0 <= i < |files|
      ensures if CpusOf(files[i]) == [] then values[i] == 0.0 else Measures(files[i], n, values[i])
    {
      ValueMeasures(files[i], n);
    }
    hide Distributed, Output, JobOf, FieldIfCpus, Measures, CpusOf;
  }

  lemma ValueMeasures(f: JobFiles, n: Name)
    ensures var v := FieldIfCpus(JobOf(f), n); if CpusOf(f) == [] then v == 0.0 else Measures(f, n, v)
  {
    FieldMeasures(f, n);
    hide Measures;
  }

  // ----- the code -----

  class SlurmCgroupCollector {
    const allCPUs: seq<int>
    const excluded: set<Name>
    var cpuUsed: map<int, bool>

    constructor (allCPUs: seq<int>, excluded: set<Name>)
      ensures this.allCPUs == allCPUs && this.excluded == excluded && cpuUsed == map[]
    {
      this.allCPUs := allCPUs;
      this.excluded := excluded;
      cpuUsed := map[];
    }

    /** The messages of one CPU. */
    method Send(cpu: int, value: Name -> real) returns (out: seq<Message>)
      ensures out == ForCpu(cpu, value, excluded)
    {
      hide ForName;
      out := [];
      AndName([], MemUsed, cpu, value, excluded);
      assert [] + ForName(MemUsed, cpu, value, excluded) == ForName(MemUsed, cpu, value, excluded);
      if MemUsed !in excluded { out := out + [Message(MemUsed, cpu, value(MemUsed))]; }
      AndName(out, MaxMemUsed, cpu, value, excluded);
      if MaxMemUsed !in excluded { out := out + [Message(MaxMemUsed, cpu, value(MaxMemUsed))]; }
      AndName(out, MemLimit, cpu, value, excluded);
      if MemLimit !in excluded { out := out + [Message(MemLimit, cpu, value(MemLimit))]; }
      AndName(out, UserCpu, cpu, value, excluded);
      if UserCpu !in excluded { out := out + [Message(UserCpu, cpu, value(UserCpu))]; }
      AndName(out, SysCpu, cpu, value, excluded);
      if SysCpu !in excluded { out := out + [Message(SysCpu, cpu, value(SysCpu))]; }
    }

    /** jobDirs is None if the job directories cannot be listed. The messages do not depend on cpuUsed before. */
    method Read(jobDirs: Option<seq<JobFiles>>) returns (out: seq<Message>)
      modifies this`cpuUsed
      ensures jobDirs.None? ==> out == [] && cpuUsed == map[]
      ensures jobDirs.Some? ==>
        var jobs := JobsOf(jobDirs.value);
        out == Output(jobs, allCPUs, excluded) && forall c :: c in cpuUsed <==> c in JobCpus(jobs)
    {
      out := [];
      cpuUsed := map[];
      if jobDirs.None? { return; }
      var dirs := jobDirs.value;
      ghost var jobs := JobsOf(dirs);
      for i := 0 to |dirs|
        invariant out == ForJobs(jobs[..i], excluded)
        invariant forall c :: c in cpuUsed <==> c in JobCpus(jobs[..i])
        invariant forall c :: c in cpuUsed ==> cpuUsed[c]
      {
        assert jobs[..i + 1][..i] == jobs[..i];
        var job := ReadJobData(dirs[i]);
        var sent := Distribute(job);
        out := out + sent;
      }
      assert jobs[..|dirs|] == jobs;
      var zeros := FillIdle(jobs);
      out := out + zeros;
    }

    /** A file that cannot be read or parsed leaves its value at zero, and the CPU set empty. */
    method ReadJobData(f: JobFiles) returns (job: JobData)
      ensures job == JobOf(f)
    {
      var usage, user, system := 0.0, 0.0, 0.0;
      for i := 0 to |f.cpuStat|
        invariant usage == Stat(f.cpuStat[..i], "usage_usec")
        invariant user == Stat(f.cpuStat[..i], "user_usec")
        invariant system == Stat(f.cpuStat[..i], "system_usec")
      {
        assert f.cpuStat[..i + 1][..i] == f.cpuStat[..i];
        var (name, value) := f.cpuStat[i];
        if name == "usage_usec" { usage := value; }
        else if name == "user_usec" { user := value; }
        else if name == "system_usec" { system := value; }
      }
      assert f.cpuStat[..|f.cpuStat|] == f.cpuStat;
      var cpus: seq<int> := [];
      if f.cpusetCpus.Some? {
        var parsed := CpuList.ParseCPUs(TrimSpace(f.cpusetCpus.value));
        cpus := ValueOr(parsed, []);
      }
      job := JobData(
        ValueOr(f.memoryCurrent, 0.0), ValueOr(f.memoryPeak, 0.0), ValueOr(f.memoryMax, 0.0),
        Percent(user, usage), Percent(system, usage), cpus);
    }

    /** The loop over the CPUs of one job. */
    method Distribute(job: JobData) returns (out: seq<Message>)
      modifies this`cpuUsed
      ensures out == ForJob(job, excluded)
      ensures forall c :: c in cpuUsed <==> c in old(cpuUsed) || c in job.cpuSet
      ensures forall c :: c in cpuUsed ==> cpuUsed[c] == if c in job.cpuSet then true else old(cpuUsed)[c]
    {
      out := [];
      if |job.cpuSet| > 0 {
        var cpus := job.cpuSet;
        for k := 0 to |cpus|
          invariant out == ForCpus(cpus[..k], ShareOf(job), excluded)
          invariant forall c :: c in cpuUsed <==> c in old(cpuUsed) || c in cpus[..k]
          invariant forall c :: c in cpuUsed ==> cpuUsed[c] == if c in cpus[..k] then true else old(cpuUsed)[c]
        {
          assert cpus[..k + 1][..k] == cpus[..k];
          var sent := Send(cpus[k], ShareOf(job));
          out := out + sent;
          cpuUsed := cpuUsed[cpus[k] := true];
        }
        assert cpus[..|cpus|] == cpus;
      }
    }

    /** The loop over all CPUs. */
    method FillIdle(ghost jobs: seq<JobData>) returns (out: seq<Message>)
      requires forall c :: c in cpuUsed <==> c in JobCpus(jobs)
      requires forall c :: c in cpuUsed ==> cpuUsed[c]
      ensures out == ForCpus(Idle(allCPUs, jobs), Zeros(), excluded)
    {
      out := [];
      for k := 0 to |allCPUs|
        invariant out == ForCpus(Idle(allCPUs[..k], jobs), Zeros(), excluded)
      {
        assert allCPUs[..k + 1][..k] == allCPUs[..k];
        var cpu := allCPUs[k];
        if !(cpu in cpuUsed && cpuUsed[cpu]) {
          var sent := Send(cpu, Zeros());
          var idle := Idle(allCPUs[..k], jobs);
          assert (idle + [cpu])[..|idle|] == idle;
          assert Idle(allCPUs[..k + 1], jobs) == idle + [cpu];
          out := out + sent;
        } else {
          assert Idle(allCPUs[..k + 1], jobs) == Idle(allCPUs[..k], jobs);
        }
      }
      assert allCPUs[..|allCPUs|] == allCPUs;
    }
  }
}
