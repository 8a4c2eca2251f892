/** The enumeration data conserves the records of the task phase. */
module Enumeration {
  import opened Chains
  import opened GeneratorSpec
  import opened MesosState
  import opened Sequences

  function TaskEntries(): EnumTask -> seq<RR> { (t: EnumTask) => t.records }

  function EntriesOf(f: EnumFramework): seq<RR> { FlatMap(f.tasks, TaskEntries()) }

  function FrameworkEntries(): EnumFramework -> seq<RR> { (f: EnumFramework) => EntriesOf(f) }

  /** All enumerated records, framework by framework and task by task. */
  function Entries(e: seq<EnumFramework>): seq<RR> { FlatMap(e, FrameworkEntries()) }

  lemma {:induction false} NewOnesMember(records: set<RR>, events: seq<RR>)
    ensures forall e :: e in NewOnes(records, events) <==> e in AddEvents(records, events) && e !in records
  {
    if events == [] {
    } else {
      var init, last := events[..|events| - 1], events[|events| - 1];
      NewOnesMember(records, init);
      assert events == init + [last];
      AddAppend(records, init, [last]);
      assert AddEvents(AddEvents(records, init), [last]) ==
             AddEvents(records, init) + if last.host != "" then {last} else {};
    }
  }

  lemma {:induction false} NewOnesDistinct(records: set<RR>, events: seq<RR>)
    ensures Distinct(NewOnes(records, events))
  {
    if events == [] {
    } else {
      var init := events[..|events| - 1];
      NewOnesDistinct(records, init);
      NewOnesMember(records, init);
    }
  }

  /** The new records of a list are those with a host that were not there, each once. */
  lemma {:induction false} NewOnesAre(records: set<RR>, events: seq<RR>)
    ensures Distinct(NewOnes(records, events))
    ensures (set e | e in NewOnes(records, events)) == AddEvents(records, events) - records
  {
    NewOnesDistinct(records, events);
    NewOnesMember(records, events);
  }

  lemma {:induction false} TasksEntries(
    cfg: Config, slaveIPs: map<string, string>, f: Framework, records: set<RR>, tasks: seq<Task>)
    ensures FlatMap(EnumTasks(cfg, slaveIPs, f, records, tasks), TaskEntries()) ==
            NewOnes(records, FlatMap(tasks, TaskEvents(cfg, slaveIPs, f)))
  {
    if tasks == [] {
    } else {
      var init, last := tasks[..|tasks| - 1], tasks[|tasks| - 1];
      var g := TaskEvents(cfg, slaveIPs, f);
      TasksEntries(cfg, slaveIPs, f, records, init);
      NewOnesAppend(records, FlatMap(init, g), g(last));
      var before := EnumTasks(cfg, slaveIPs, f, records, init);
      if Eligible(slaveIPs, last) {
        var entry := EnumTask(last.name, last.id,
          NewOnes(AddEvents(records, FlatMap(init, g)), TaskList(cfg, slaveIPs, f, last)));
        FlatMapAppend(before, [entry], TaskEntries());
        FlatMapOne(entry, TaskEntries());
      } else {
        assert before + [] == before;
      }
    }
  }

  lemma {:induction false} FrameworksEntries(
    cfg: Config, slaveIPs: map<string, string>, records: set<RR>, fs: seq<Framework>)
    ensures Entries(EnumFrameworks(cfg, slaveIPs, records, fs)) == NewOnes(records, TaskPhase(cfg, slaveIPs, fs))
  {
    if fs == [] {
    } else {
      var init, last := fs[..|fs| - 1], fs[|fs| - 1];
      FrameworksEntries(cfg, slaveIPs, records, init);
      var before := AddEvents(records, TaskPhase(cfg, slaveIPs, init));
      NewOnesAppend(records, TaskPhase(cfg, slaveIPs, init), FrameworkTaskList(cfg, slaveIPs, last));
      TasksEntries(cfg, slaveIPs, last, before, last.tasks);
      var entry := EnumFramework(last.name, EnumTasks(cfg, slaveIPs, last, before, last.tasks));
      FlatMapAppend(EnumFrameworks(cfg, slaveIPs, records, init), [entry], FrameworkEntries());
      FlatMapOne(entry, FrameworkEntries());
    }
  }

  /** What InsertState adds to the enumeration: pairwise distinct records, exactly those of
      the final maps that were not there before the task phase, so the counts add up. */
  lemma {:induction false} EnumerationConserved(cfg: Config, sj: State)
    ensures var entries := Entries(EnumFrameworks(cfg, SlaveAddresses(cfg, sj.slaves), BaseRecords(cfg, sj),
            sj.frameworks));
            && Distinct(entries)
            && (set e | e in entries) == FinalRecords(cfg, sj) - BaseRecords(cfg, sj)
            && |FinalRecords(cfg, sj)| == |BaseRecords(cfg, sj)| + |entries|
  {
    var slaveIPs, base := SlaveAddresses(cfg, sj.slaves), BaseRecords(cfg, sj);
    FrameworksEntries(cfg, slaveIPs, base, sj.frameworks);
    var events := TaskPhase(cfg, slaveIPs, sj.frameworks);
    NewOnesAre(base, events);
    CountsAdd(base, events);
  }

  lemma {:induction false} CountsAdd(base: set<RR>, events: seq<RR>)
    ensures |AddEvents(base, events)| == |base| + |NewOnes(base, events)|
  {
    NewOnesAre(base, events);
    var news := NewOnes(base, events);
    DistinctSetSize(news);
    var added := set e | e in news;
    assert AddEvents(base, events) == base + added && base !! added;
  }

  /** The enumeration is not reset: inserting the same state into the same generator again
      enumerates every task record a second time. */
  lemma {:induction false} SecondInsertRepeats(cfg: Config, sj: State)
    ensures var once := EnumFrameworks(cfg, SlaveAddresses(cfg, sj.slaves), BaseRecords(cfg, sj), sj.frameworks);
            Distinct(Entries(once + once)) <==> FinalRecords(cfg, sj) == BaseRecords(cfg, sj)
  {
    var once := EnumFrameworks(cfg, SlaveAddresses(cfg, sj.slaves), BaseRecords(cfg, sj), sj.frameworks);
    FlatMapAppend(once, once, FrameworkEntries());
    EnumerationConserved(cfg, sj);
    RepeatedNotDistinct(Entries(once), FinalRecords(cfg, sj), BaseRecords(cfg, sj));
  }

  lemma RepeatedNotDistinct(entries: seq<RR>, final: set<RR>, base: set<RR>)
    requires base <= final && (set e | e in entries) == final - base
    ensures Distinct(entries + entries) <==> final == base
  {
    var all := set e | e in entries;
    forall x ensures x in entries <==> x in final && x !in base {
      assert x in entries <==> x in all;
      assert x in all <==> x in final - base;
    }
    if entries != [] {
      assert (entries + entries)[0] == (entries + entries)[|entries|];
      assert entries[0] in entries;
    }
  }
}
