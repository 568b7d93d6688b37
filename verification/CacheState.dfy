/** What the cache knows about a package, and the decision that is taken on a request for it. */
module CacheState {
  import opened Wrappers
  import opened CompleteFileSize
  import opened ProviderSelection

  /** A package file and its side file; either may be missing. */
  datatype Disk = Disk(file: Option<seq<bv8>>, cfs: Option<string>)

  datatype CachedItem = CachedItem(completeSize: Option<nat>, cachedSize: nat)

  function Bytes(disk: Disk): seq<bv8> {
    match disk.file case None => [] case Some(bytes) => bytes
  }

  /** The complete size according to the side file. */
  function RecordedSize(disk: Disk): Option<nat> {
    match disk.cfs case None => None case Some(text) => Parse(text)
  }

  /** The cache state, and the disk after it has been determined: without a readable side file, an empty package
      file is removed, and the size of any other is taken for complete and recorded. */
  function Persisted(disk: Disk): (Option<CachedItem>, Disk) {
    match disk.file
    case None => (None, disk)
    case Some(bytes) =>
      match RecordedSize(disk)
      case Some(size) => (Some(CachedItem(Some(size), |bytes|)), disk)
      case None =>
        if bytes == [] then (None, disk.(file := None))
        else (Some(CachedItem(Some(|bytes|), |bytes|)), disk.(cfs := Some(Print(|bytes|))))
  }

  datatype Decision = InProgress | FromProvider | FromCache | ByRedirect

  /** The decision for an order that is, or is not, in progress. */
  function Decide(inProgress: bool, state: Option<CachedItem>, resumeFrom: nat): Decision {
    if inProgress then InProgress
    else
      match state
      case None => if resumeFrom > 0 then ByRedirect else FromProvider
      case Some(CachedItem(complete, cached)) =>
        if cached < resumeFrom then ByRedirect
        else if complete == Some(cached) then FromCache
        else FromProvider
  }

  class CacheEntry {
    var file: Option<seq<bv8>>
    var cfs: Option<string>

    function State(): Disk
      reads this
    {
      Disk(file, cfs)
    }

    constructor (disk: Disk)
      ensures State() == disk
    {
      file, cfs := disk.file, disk.cfs;
    }

    method GetCompleteSizeFromCfsFile() returns (size: Option<nat>)
      ensures size == RecordedSize(State())
    {
      match cfs
      case None => size := None;
      case Some(text) => size := Parse(text);
    }

    /** Truncates the side file, then writes the line. */
    method CreateCfsFile(size: nat)
      modifies this`cfs
      ensures cfs == Some(Print(size))
    {
      cfs := Some("");
      cfs := Some(cfs.value + Print(size));
      assert "" + Print(size) == Print(size);
    }

    method PersistAndGetCacheState() returns (r: Option<CachedItem>)
      modifies this
      ensures (r, State()) == Persisted(old(State()))
    {
      if file == None {
        return None;
      }
      var fileSize := |file.value|;
      var completeSize := GetCompleteSizeFromCfsFile();
      if completeSize == None {
        if fileSize == 0 {
          file := None;
          return None;
        }
        CreateCfsFile(fileSize);
        completeSize := Some(fileSize);
      }
      r := Some(CachedItem(completeSize, fileSize));
    }
  }

  datatype ScheduleOutcome = AlreadyInProgress | Scheduled | Cached | Uncacheable(provider: Provider, guard: Option<nat>)

  /** The first provider with the least latency. */
  predicate IsFastest(providers: seq<Provider>, c: nat) {
    && c < |providers|
    && forall j :: 0 <= j < |providers| ==>
         if j < c then providers[c].latency < providers[j].latency else providers[c].latency <= providers[j].latency
  }

  class JobContext<Order(==)> {
    var ordersInProgress: set<Order>
    const providerGuards: ProviderGuards

    constructor (providerGuards: ProviderGuards)
      ensures ordersInProgress == {} && this.providerGuards == providerGuards
    {
      ordersInProgress, this.providerGuards := {}, providerGuards;
    }

    /** A custom provider is the only choice, with a guard of its own. Otherwise a guard is taken on the first pool provider
        with the least latency. */
    method BestProvider(customProvider: Option<Provider>) returns (p: Provider, guard: Option<nat>)
      requires providerGuards.Valid() && providerGuards.providers != []
      modifies providerGuards
      ensures providerGuards.Valid()
      ensures customProvider.Some? ==> p == customProvider.value && guard == None && unchanged(providerGuards)
      ensures customProvider == None ==>
        && guard.Some? && IsFastest(providerGuards.providers, guard.value) && p == providerGuards.providers[guard.value]
        && guard.value < |old(providerGuards.strong)|
        && providerGuards.strong == old(providerGuards.strong)[guard.value := old(providerGuards.strong)[guard.value] + 1]
    {
      match customProvider
      case Some(custom) => p, guard := custom, None;
      case None =>
        assert RateInitially()(providerGuards.providers[0], providerGuards.strong[0]).Include?;
        ghost var strong := providerGuards.strong;
        var chosen, numCandidates := providerGuards.GetProviderGuard(RateInitially());
        p, guard := providerGuards.providers[chosen], Some(chosen);
        forall j | 0 <= j < |strong|
          ensures if j < chosen then p.latency < providerGuards.providers[j].latency
                  else p.latency <= providerGuards.providers[j].latency
        {
          assert RateInitially()(providerGuards.providers[j], strong[j]).Include?;
        }
    }

    method TrySchedule(order: Order, cacheable: bool, entry: CacheEntry, customProvider: Option<Provider>,
                       resumeFrom: Option<nat>) returns (outcome: ScheduleOutcome)
      requires providerGuards.Valid() && providerGuards.providers != []
      modifies this, entry, providerGuards
      ensures
        var known := order in old(ordersInProgress);
        var (state, disk) := if known || !cacheable then (None, old(entry.State())) else Persisted(old(entry.State()));
        var decision := Decide(known, state, match resumeFrom case None => 0 case Some(r) => r);
        && entry.State() == disk
        && (outcome.AlreadyInProgress? <==> decision == InProgress)
        && (outcome.Scheduled? <==> decision == FromProvider)
        && (outcome.Cached? <==> decision == FromCache)
        && (outcome.Uncacheable? <==> decision == ByRedirect)
      ensures ordersInProgress == old(ordersInProgress) + if outcome.Scheduled? then {order} else {}
      ensures outcome.Scheduled? ==> order !in old(ordersInProgress)
      ensures !outcome.Uncacheable? ==> unchanged(providerGuards)
      ensures outcome.Uncacheable? && customProvider.Some? ==>
        outcome == Uncacheable(customProvider.value, None) && unchanged(providerGuards)
      ensures outcome.Uncacheable? && customProvider == None ==>
        && outcome.guard.Some? && IsFastest(providerGuards.providers, outcome.guard.value)
        && outcome.provider == providerGuards.providers[outcome.guard.value]
        && var (g, strong) := (outcome.guard.value, old(providerGuards.strong));
           g < |strong| && providerGuards.strong == strong[g := strong[g] + 1]
    {
      var resumeFrom := match resumeFrom case None => 0 case Some(r) => r;
      if order in ordersInProgress {
        return AlreadyInProgress;
      }
      var state := None;
      if cacheable {
        state := entry.PersistAndGetCacheState();
      }
      match state {
        case None =>
          if resumeFrom > 0 {
            var p, guard := BestProvider(customProvider);
            return Uncacheable(p, guard);
          }
        case Some(item) =>
          if item.cachedSize < resumeFrom {
            var p, guard := BestProvider(customProvider);
            return Uncacheable(p, guard);
          }
          if item.completeSize == Some(item.cachedSize) {
            return Cached;
          }
      }
      ordersInProgress := ordersInProgress + {order};
      outcome := Scheduled;
    }
  }

  // ---- What the cache state says about the content ----

  /** The file on disk is what has arrived so far of the given content. */
  ghost predicate Holds(disk: Disk, content: seq<bv8>) {
    Bytes(disk) <= content
  }

  /** The cache state is right: either nothing is known, or the true complete size is. */
  ghost predicate TellsTheTruth(disk: Disk, content: seq<bv8>) {
    var state := Persisted(disk).0;
    state.Some? ==> state.value == CachedItem(Some(|content|), |Bytes(disk)|)
  }

  /** For a side file that is unreadable or right, the cache state is right exactly unless
      an incomplete, non-empty file has no readable side file. */
  lemma TruthfulExactlyWhen(disk: Disk, content: seq<bv8>)
    requires Holds(disk, content)
    requires RecordedSize(disk) == None || RecordedSize(disk) == Some(|content|)
    ensures TellsTheTruth(disk, content) <==> !(RecordedSize(disk) == None && 0 < |Bytes(disk)| < |content|)
  {
  }

  /** Asking twice gives the same answer, and asking does not touch the bytes of the package. */
  lemma PersistedIsStable(disk: Disk)
    requires |Bytes(disk)| < U64_LIMIT
    ensures Bytes(Persisted(disk).1) == Bytes(disk)
    ensures Persisted(Persisted(disk).1) == Persisted(disk)
  {
    PrintThenParse(|Bytes(disk)|);
  }

  /** With a right cache state, the decision is the one that the bytes call for: a client that resumes past what is there
      is redirected, a complete package is served from cache, and the rest is fetched. So, nobody who is served from
      cache or from a download that starts now resumes past the end of the package. */
  lemma DecisionIsRight(disk: Disk, content: seq<bv8>, inProgress: bool, resumeFrom: nat)
    requires Holds(disk, content) && TellsTheTruth(disk, content) && content != []
    ensures Decide(inProgress, Persisted(disk).0, resumeFrom)
         == if inProgress then InProgress
            else if resumeFrom > |Bytes(disk)| then ByRedirect
            else if Bytes(disk) == content then FromCache
            else FromProvider
    ensures |Bytes(disk)| <= |content|
  {
    assert |Bytes(disk)| == |content| ==> Bytes(disk) == content;
  }
}
