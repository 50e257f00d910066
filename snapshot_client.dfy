/**
 * The snapshot client: fans out to every registered butler, stamps what each
 * returns with the butler's foundation name, and merges the per-foundation
 * results into one list, one sorted account set, or one aggregated count.
 *
 * Every aggregation is one round of fetches. A round is answered by a
 * `Network`, and every round gets its own, so the same butler may answer
 * differently each time it is asked. The per-butler streams are merged in
 * registry order; that is one of the orders the concurrent merge can produce,
 * and every property below other than the list's exact order holds for all of
 * them.
 */
module SnapshotClient {
  import opened Domain
  import opened Gateway
  import StringOrder
  import CountsReducer

  // ---------------------------------------------------------------------------
  // One butler's detail fetch
  // ---------------------------------------------------------------------------

  /** The reply a butler's detail request receives in one round. */
  function DetailReply(b: Butler, net: Network<SnapshotDetail>): Reply<SnapshotDetail>
  {
    net(b.name)(DetailUri(BaseUrl(b.address)))
  }

  /** `obtainSnapshotDetail("https://" + address)` for one butler. */
  function FetchDetail(b: Butler, timeoutMillis: nat, net: Network<SnapshotDetail>): (r: Result<Option<SnapshotDetail>>)
    ensures r.Failure? <==> Fatal(DetailReply(b, net), timeoutMillis)
    ensures r.Failure? ==> r.error == DetailReply(b, net).body.message
    ensures r == Success(None) <==> Silent(DetailReply(b, net), timeoutMillis)
    ensures Degraded(DetailReply(b, net), timeoutMillis) ==> r == Success(Some(EmptyDetail))
    ensures !Degraded(DetailReply(b, net), timeoutMillis) && DetailReply(b, net).body.Document? ==>
      r == Success(Some(DetailReply(b, net).body.doc))
  {
    ObtainSnapshotDetail(BaseUrl(b.address), timeoutMillis, net(b.name))
  }

  /** No butler's detail request ends in an unrecovered error. */
  ghost predicate AllDetailsReached(butlers: seq<Butler>, timeoutMillis: nat, net: Network<SnapshotDetail>)
  {
    forall b <- butlers :: !Fatal(DetailReply(b, net), timeoutMillis)
  }

  /** Every butler's detail request times out or gets an error response. */
  ghost predicate DetailUnreachable(butlers: seq<Butler>, timeoutMillis: nat, net: Network<SnapshotDetail>)
  {
    forall b <- butlers :: Degraded(DetailReply(b, net), timeoutMillis)
  }

  /**
   * Every butler's detail fetch completes with nothing or with the empty
   * document: it times out, gets an error response, or answers in time with
   * no body or an empty document.
   */
  ghost predicate NothingReturned(butlers: seq<Butler>, timeoutMillis: nat, net: Network<SnapshotDetail>)
  {
    forall b <- butlers ::
      FetchDetail(b, timeoutMillis, net) == Success(None) || FetchDetail(b, timeoutMillis, net) == Success(Some(EmptyDetail))
  }

  /** A butler that times out or gets an error response returns nothing. */
  lemma UnreachableReturnsNothing(butlers: seq<Butler>, timeoutMillis: nat, net: Network<SnapshotDetail>)
    requires DetailUnreachable(butlers, timeoutMillis, net)
    ensures forall b <- butlers :: FetchDetail(b, timeoutMillis, net) == Success(Some(EmptyDetail))
    ensures NothingReturned(butlers, timeoutMillis, net)
  {
  }

  // ---------------------------------------------------------------------------
  // The fan-out shared by the five detail aggregations
  // ---------------------------------------------------------------------------

  /**
   * `butlers.flatMap(b -> obtainSnapshotDetail(..).flatMapMany(sd -> contribution(b, sd)))
   * .collectList()`: the first unrecovered error ends the whole aggregation.
   */
  function FanOut<T>(
    butlers: seq<Butler>, timeoutMillis: nat, net: Network<SnapshotDetail>,
    contribution: (Butler, SnapshotDetail) -> seq<T>): (r: Result<seq<T>>)
    ensures r.Success? <==> AllDetailsReached(butlers, timeoutMillis, net)
    ensures r.Failure? ==>
      exists b <- butlers :: Fatal(DetailReply(b, net), timeoutMillis) && r.error == DetailReply(b, net).body.message
    decreases |butlers|
  {
    if butlers == [] then Success([])
    else
      var fetched :- FetchDetail(butlers[0], timeoutMillis, net);
      var rest :- FanOut(butlers[1..], timeoutMillis, net, contribution);
      assert butlers == [butlers[0]] + butlers[1..];
      var head := if fetched.Some? then contribution(butlers[0], fetched.value) else [];
      Success(head + rest)
  }

  /** What one butler adds to a merged collection: nothing when its fetch emits no document. */
  ghost function Part<T>(
    b: Butler, timeoutMillis: nat, net: Network<SnapshotDetail>,
    contribution: (Butler, SnapshotDetail) -> seq<T>): seq<T>
  {
    match FetchDetail(b, timeoutMillis, net)
    case Success(Some(sd)) => contribution(b, sd)
    case _ => []
  }

  /** The sum, over the butlers, of what each adds. */
  ghost function TotalSize<T>(
    butlers: seq<Butler>, timeoutMillis: nat, net: Network<SnapshotDetail>,
    contribution: (Butler, SnapshotDetail) -> seq<T>): nat
  {
    if butlers == [] then 0
    else |Part(butlers[0], timeoutMillis, net, contribution)| + TotalSize(butlers[1..], timeoutMillis, net, contribution)
  }

  /** The multiset union, over the butlers, of what each adds. */
  ghost function AllParts<T>(
    butlers: seq<Butler>, timeoutMillis: nat, net: Network<SnapshotDetail>,
    contribution: (Butler, SnapshotDetail) -> seq<T>): multiset<T>
  {
    if butlers == [] then multiset{}
    else multiset(Part(butlers[0], timeoutMillis, net, contribution)) + AllParts(butlers[1..], timeoutMillis, net, contribution)
  }

  /** Every element a contribution yields is stamped with the name of the butler it came from. */
  ghost predicate Stamps<T>(contribution: (Butler, SnapshotDetail) -> seq<T>, tagOf: T -> string)
  {
    forall b, sd, x :: x in contribution(b, sd) ==> tagOf(x) == b.name
  }

  /** The elements stamped with `name`, in their merged order. */
  function Keep<T>(xs: seq<T>, tagOf: T -> string, name: string): (r: seq<T>)
    ensures forall x <- r :: x in xs && tagOf(x) == name
    ensures forall x <- xs :: tagOf(x) == name ==> x in r
    decreases |xs|
  {
    if xs == [] then []
    else (if tagOf(xs[0]) == name then [xs[0]] else []) + Keep(xs[1..], tagOf, name)
  }

  lemma {:induction false} KeepAppend<T>(xs: seq<T>, ys: seq<T>, tagOf: T -> string, name: string)
    ensures Keep(xs + ys, tagOf, name) == Keep(xs, tagOf, name) + Keep(ys, tagOf, name)
    decreases |xs|
  {
    if xs == [] {
      assert xs + ys == ys;
    } else {
      var h := if tagOf(xs[0]) == name then [xs[0]] else [];
      assert (xs + ys)[0] == xs[0];
      assert (xs + ys)[1..] == xs[1..] + ys;
      calc {
        Keep(xs + ys, tagOf, name);
        h + Keep(xs[1..] + ys, tagOf, name);
        { KeepAppend(xs[1..], ys, tagOf, name); }
        h + (Keep(xs[1..], tagOf, name) + Keep(ys, tagOf, name));
        (h + Keep(xs[1..], tagOf, name)) + Keep(ys, tagOf, name);
        Keep(xs, tagOf, name) + Keep(ys, tagOf, name);
      }
    }
  }

  lemma {:induction false} KeepAll<T>(xs: seq<T>, tagOf: T -> string, name: string)
    requires forall x <- xs :: tagOf(x) == name
    ensures Keep(xs, tagOf, name) == xs
    decreases |xs|
  {
    if xs != [] {
      assert forall x <- xs[1..] :: x in xs;
      KeepAll(xs[1..], tagOf, name);
      assert xs == [xs[0]] + xs[1..];
    }
  }

  lemma KeepNone<T>(xs: seq<T>, tagOf: T -> string, name: string)
    requires forall x <- xs :: tagOf(x) != name
    ensures Keep(xs, tagOf, name) == []
  {
  }

  /** Unfolds one step of a fan-out in which nothing failed. */
  lemma FanOutStep<T>(
    butlers: seq<Butler>, timeoutMillis: nat, net: Network<SnapshotDetail>,
    contribution: (Butler, SnapshotDetail) -> seq<T>)
    requires butlers != [] && AllDetailsReached(butlers, timeoutMillis, net)
    ensures AllDetailsReached(butlers[1..], timeoutMillis, net)
    ensures FanOut(butlers, timeoutMillis, net, contribution).value
         == Part(butlers[0], timeoutMillis, net, contribution) + FanOut(butlers[1..], timeoutMillis, net, contribution).value
  {
  }

  /** An element is in the merged collection exactly when some butler added it. */
  lemma {:induction false} FanOutMembers<T>(
    butlers: seq<Butler>, timeoutMillis: nat, net: Network<SnapshotDetail>,
    contribution: (Butler, SnapshotDetail) -> seq<T>)
    requires AllDetailsReached(butlers, timeoutMillis, net)
    ensures forall x :: x in FanOut(butlers, timeoutMillis, net, contribution).value <==>
      exists b <- butlers :: x in Part(b, timeoutMillis, net, contribution)
    decreases |butlers|
  {
    if butlers != [] {
      var b0, tail := butlers[0], butlers[1..];
      FanOutStep(butlers, timeoutMillis, net, contribution);
      FanOutMembers(tail, timeoutMillis, net, contribution);
      var head := Part(b0, timeoutMillis, net, contribution);
      forall x
        ensures x in FanOut(butlers, timeoutMillis, net, contribution).value <==>
          exists b <- butlers :: x in Part(b, timeoutMillis, net, contribution)
      {
        if x in head {
          assert b0 in butlers;
        }
        if exists b <- butlers :: x in Part(b, timeoutMillis, net, contribution) {
          var b :| b in butlers && x in Part(b, timeoutMillis, net, contribution);
          if b != b0 {
            var j :| 0 <= j < |butlers| && butlers[j] == b;
            assert tail[j - 1] == b;
          }
        }
      }
    }
  }

  /** The merged collection has as many elements as the butlers added, and exactly those. */
  lemma {:induction false} FanOutCounts<T>(
    butlers: seq<Butler>, timeoutMillis: nat, net: Network<SnapshotDetail>,
    contribution: (Butler, SnapshotDetail) -> seq<T>)
    requires AllDetailsReached(butlers, timeoutMillis, net)
    ensures multiset(FanOut(butlers, timeoutMillis, net, contribution).value) == AllParts(butlers, timeoutMillis, net, contribution)
    ensures |FanOut(butlers, timeoutMillis, net, contribution).value| == TotalSize(butlers, timeoutMillis, net, contribution)
    decreases |butlers|
  {
    if butlers != [] {
      FanOutStep(butlers, timeoutMillis, net, contribution);
      FanOutCounts(butlers[1..], timeoutMillis, net, contribution);
    }
  }

  /** A butler that added a given merged element. */
  lemma Origin<T>(
    butlers: seq<Butler>, timeoutMillis: nat, net: Network<SnapshotDetail>,
    contribution: (Butler, SnapshotDetail) -> seq<T>, x: T) returns (b: Butler)
    requires AllDetailsReached(butlers, timeoutMillis, net)
    requires x in FanOut(butlers, timeoutMillis, net, contribution).value
    ensures b in butlers && x in Part(b, timeoutMillis, net, contribution)
  {
    FanOutMembers(butlers, timeoutMillis, net, contribution);
    b :| b in butlers && x in Part(b, timeoutMillis, net, contribution);
  }

  /** Every merged element carries the name of a registered butler. */
  lemma FanOutTagged<T>(
    butlers: seq<Butler>, timeoutMillis: nat, net: Network<SnapshotDetail>,
    contribution: (Butler, SnapshotDetail) -> seq<T>, tagOf: T -> string)
    requires Stamps(contribution, tagOf)
    requires AllDetailsReached(butlers, timeoutMillis, net)
    ensures forall x <- FanOut(butlers, timeoutMillis, net, contribution).value :: tagOf(x) in Names(butlers)
  {
  }

  /**
   * Picking out the elements stamped with one butler's name gives back exactly
   * what that butler added, in its own order.
   */
  lemma {:induction false} FanOutPerSource<T>(
    butlers: seq<Butler>, timeoutMillis: nat, net: Network<SnapshotDetail>,
    contribution: (Butler, SnapshotDetail) -> seq<T>, tagOf: T -> string, i: nat)
    requires Stamps(contribution, tagOf)
    requires UniqueNames(butlers) && i < |butlers|
    requires AllDetailsReached(butlers, timeoutMillis, net)
    ensures Keep(FanOut(butlers, timeoutMillis, net, contribution).value, tagOf, butlers[i].name)
         == Part(butlers[i], timeoutMillis, net, contribution)
    decreases |butlers|
  {
    var b0, tail := butlers[0], butlers[1..];
    var name := butlers[i].name;
    FanOutStep(butlers, timeoutMillis, net, contribution);
    var head := Part(b0, timeoutMillis, net, contribution);
    var rest := FanOut(tail, timeoutMillis, net, contribution).value;
    KeepAppend(head, rest, tagOf, name);
    assert forall x <- head :: tagOf(x) == b0.name;
    if i == 0 {
      KeepAll(head, tagOf, name);
      RestNotStampedWithHead(butlers, timeoutMillis, net, contribution, tagOf);
      KeepNone(rest, tagOf, name);
    } else {
      assert name != b0.name;
      KeepNone(head, tagOf, name);
      TailUniqueNames(butlers);
      assert tail[i - 1] == butlers[i];
      FanOutPerSource(tail, timeoutMillis, net, contribution, tagOf, i - 1);
    }
  }

  lemma TailUniqueNames(butlers: seq<Butler>)
    requires butlers != [] && UniqueNames(butlers)
    ensures UniqueNames(butlers[1..])
  {
  }

  /** With unique names, nothing the later butlers add carries the first butler's name. */
  lemma RestNotStampedWithHead<T>(
    butlers: seq<Butler>, timeoutMillis: nat, net: Network<SnapshotDetail>,
    contribution: (Butler, SnapshotDetail) -> seq<T>, tagOf: T -> string)
    requires Stamps(contribution, tagOf)
    requires butlers != [] && UniqueNames(butlers)
    requires AllDetailsReached(butlers, timeoutMillis, net)
    ensures forall x <- FanOut(butlers[1..], timeoutMillis, net, contribution).value :: tagOf(x) != butlers[0].name
  {
    var tail := butlers[1..];
    FanOutStep(butlers, timeoutMillis, net, contribution);
    forall x <- FanOut(tail, timeoutMillis, net, contribution).value
      ensures tagOf(x) != butlers[0].name
    {
      var b := Origin(tail, timeoutMillis, net, contribution, x);
      var j :| 0 <= j < |tail| && tail[j] == b;
      assert butlers[j + 1] == b;
    }
  }

  /** When every butler returns nothing or an empty document, nothing is merged. */
  lemma {:induction false} FanOutOfNothing<T>(
    butlers: seq<Butler>, timeoutMillis: nat, net: Network<SnapshotDetail>,
    contribution: (Butler, SnapshotDetail) -> seq<T>)
    requires NothingReturned(butlers, timeoutMillis, net)
    requires forall b :: contribution(b, EmptyDetail) == []
    ensures FanOut(butlers, timeoutMillis, net, contribution) == Success([])
    decreases |butlers|
  {
    if butlers != [] {
      assert butlers[0] in butlers;
      assert forall b <- butlers[1..] :: b in butlers;
      assert contribution(butlers[0], EmptyDetail) == [];
      FanOutOfNothing(butlers[1..], timeoutMillis, net, contribution);
      var fetched := FetchDetail(butlers[0], timeoutMillis, net);
      var head := if fetched.value.Some? then contribution(butlers[0], fetched.value.value) else [];
      assert head == [];
      assert FanOut(butlers, timeoutMillis, net, contribution) == Success(head + []);
      assert head + [] == [];
    }
  }

  // ---------------------------------------------------------------------------
  // The three stamped record lists
  // ---------------------------------------------------------------------------

  /** `AppDetail.from(ad).foundation(name).build()` for every application of the document. */
  function ApplicationsOf(b: Butler, sd: SnapshotDetail): (r: seq<AppDetail>)
    ensures |r| == |sd.applications|
    ensures forall i :: 0 <= i < |r| ==> r[i].foundation == b.name && r[i].attributes == sd.applications[i].attributes
  {
    seq(|sd.applications|, i requires 0 <= i < |sd.applications| => sd.applications[i].(foundation := b.name))
  }

  /** `ServiceInstanceDetail.from(sid).foundation(name).build()` for every service instance of the document. */
  function ServiceInstancesOf(b: Butler, sd: SnapshotDetail): (r: seq<ServiceInstanceDetail>)
    ensures |r| == |sd.serviceInstances|
    ensures forall i :: 0 <= i < |r| ==> r[i].foundation == b.name && r[i].attributes == sd.serviceInstances[i].attributes
  {
    seq(|sd.serviceInstances|, i requires 0 <= i < |sd.serviceInstances| => sd.serviceInstances[i].(foundation := b.name))
  }

  /** `AppRelationship.from(ar).foundation(name).build()` for every relationship of the document. */
  function RelationshipsOf(b: Butler, sd: SnapshotDetail): (r: seq<AppRelationship>)
    ensures |r| == |sd.applicationRelationships|
    ensures forall i :: 0 <= i < |r| ==>
      r[i].foundation == b.name && r[i].attributes == sd.applicationRelationships[i].attributes
  {
    seq(|sd.applicationRelationships|,
        i requires 0 <= i < |sd.applicationRelationships| => sd.applicationRelationships[i].(foundation := b.name))
  }

  function AppFoundation(a: AppDetail): string { a.foundation }
  function ServiceInstanceFoundation(s: ServiceInstanceDetail): string { s.foundation }
  function RelationshipFoundation(r: AppRelationship): string { r.foundation }

  lemma ApplicationsOfStamps()
    ensures Stamps(ApplicationsOf, AppFoundation)
  {
  }

  lemma ServiceInstancesOfStamps()
    ensures Stamps(ServiceInstancesOf, ServiceInstanceFoundation)
  {
  }

  lemma RelationshipsOfStamps()
    ensures Stamps(RelationshipsOf, RelationshipFoundation)
  {
  }

  /** `assembleApplicationDetail`: every butler's applications, stamped with its name, merged. */
  function AssembleApplicationDetail(settings: HooverSettings, net: Network<SnapshotDetail>): (r: Result<seq<AppDetail>>)
    ensures r.Success? <==> AllDetailsReached(settings.butlers, settings.timeoutMillis, net)
    ensures r.Success? ==> forall a <- r.value :: a.foundation in Names(settings.butlers)
    ensures r.Success? ==> multiset(r.value) == AllParts(settings.butlers, settings.timeoutMillis, net, ApplicationsOf)
    ensures r.Success? ==> |r.value| == TotalSize(settings.butlers, settings.timeoutMillis, net, ApplicationsOf)
    ensures r.Success? && UniqueNames(settings.butlers) ==>
      forall i :: 0 <= i < |settings.butlers| ==>
        Keep(r.value, AppFoundation, settings.butlers[i].name)
        == Part(settings.butlers[i], settings.timeoutMillis, net, ApplicationsOf)
  {
    var butlers, t := settings.butlers, settings.timeoutMillis;
    var r := FanOut(butlers, t, net, ApplicationsOf);
    if r.Failure? then r
    else
      ApplicationsOfStamps();
      FanOutTagged(butlers, t, net, ApplicationsOf, AppFoundation);
      FanOutCounts(butlers, t, net, ApplicationsOf);
      assert UniqueNames(butlers) ==> forall i :: 0 <= i < |butlers| ==>
        Keep(r.value, AppFoundation, butlers[i].name) == Part(butlers[i], t, net, ApplicationsOf) by {
        if UniqueNames(butlers) {
          forall i | 0 <= i < |butlers| {
            FanOutPerSource(butlers, t, net, ApplicationsOf, AppFoundation, i);
          }
        }
      }
      r
  }

  /** `assembleServiceInstanceDetail`: every butler's service instances, stamped with its name, merged. */
  function AssembleServiceInstanceDetail(settings: HooverSettings, net: Network<SnapshotDetail>)
    : (r: Result<seq<ServiceInstanceDetail>>)
    ensures r.Success? <==> AllDetailsReached(settings.butlers, settings.timeoutMillis, net)
    ensures r.Success? ==> forall s <- r.value :: s.foundation in Names(settings.butlers)
    ensures r.Success? ==> multiset(r.value) == AllParts(settings.butlers, settings.timeoutMillis, net, ServiceInstancesOf)
    ensures r.Success? ==> |r.value| == TotalSize(settings.butlers, settings.timeoutMillis, net, ServiceInstancesOf)
    ensures r.Success? && UniqueNames(settings.butlers) ==>
      forall i :: 0 <= i < |settings.butlers| ==>
        Keep(r.value, ServiceInstanceFoundation, settings.butlers[i].name)
        == Part(settings.butlers[i], settings.timeoutMillis, net, ServiceInstancesOf)
  {
    var butlers, t := settings.butlers, settings.timeoutMillis;
    var r := FanOut(butlers, t, net, ServiceInstancesOf);
    if r.Failure? then r
    else
      ServiceInstancesOfStamps();
      FanOutTagged(butlers, t, net, ServiceInstancesOf, ServiceInstanceFoundation);
      FanOutCounts(butlers, t, net, ServiceInstancesOf);
      assert UniqueNames(butlers) ==> forall i :: 0 <= i < |butlers| ==>
        Keep(r.value, ServiceInstanceFoundation, butlers[i].name) == Part(butlers[i], t, net, ServiceInstancesOf) by {
        if UniqueNames(butlers) {
          forall i | 0 <= i < |butlers| {
            FanOutPerSource(butlers, t, net, ServiceInstancesOf, ServiceInstanceFoundation, i);
          }
        }
      }
      r
  }

  /** `assembleApplicationRelationships`: every butler's relationships, stamped with its name, merged. */
  function AssembleApplicationRelationships(settings: HooverSettings, net: Network<SnapshotDetail>)
    : (r: Result<seq<AppRelationship>>)
    ensures r.Success? <==> AllDetailsReached(settings.butlers, settings.timeoutMillis, net)
    ensures r.Success? ==> forall x <- r.value :: x.foundation in Names(settings.butlers)
    ensures r.Success? ==> multiset(r.value) == AllParts(settings.butlers, settings.timeoutMillis, net, RelationshipsOf)
    ensures r.Success? ==> |r.value| == TotalSize(settings.butlers, settings.timeoutMillis, net, RelationshipsOf)
    ensures r.Success? && UniqueNames(settings.butlers) ==>
      forall i :: 0 <= i < |settings.butlers| ==>
        Keep(r.value, RelationshipFoundation, settings.butlers[i].name)
        == Part(settings.butlers[i], settings.timeoutMillis, net, RelationshipsOf)
  {
    var butlers, t := settings.butlers, settings.timeoutMillis;
    var r := FanOut(butlers, t, net, RelationshipsOf);
    if r.Failure? then r
    else
      RelationshipsOfStamps();
      FanOutTagged(butlers, t, net, RelationshipsOf, RelationshipFoundation);
      FanOutCounts(butlers, t, net, RelationshipsOf);
      assert UniqueNames(butlers) ==> forall i :: 0 <= i < |butlers| ==>
        Keep(r.value, RelationshipFoundation, butlers[i].name) == Part(butlers[i], t, net, RelationshipsOf) by {
        if UniqueNames(butlers) {
          forall i | 0 <= i < |butlers| {
            FanOutPerSource(butlers, t, net, RelationshipsOf, RelationshipFoundation, i);
          }
        }
      }
      r
  }

  // ---------------------------------------------------------------------------
  // The two account sets
  // ---------------------------------------------------------------------------

  function UserAccountsOf(b: Butler, sd: SnapshotDetail): seq<string> { sd.userAccounts }
  function ServiceAccountsOf(b: Butler, sd: SnapshotDetail): seq<string> { sd.serviceAccounts }

  /** `assembleUserAccounts`: the sorted, duplicate-free union of every butler's user accounts. */
  function AssembleUserAccounts(settings: HooverSettings, net: Network<SnapshotDetail>): (r: Result<seq<string>>)
    ensures r.Success? <==> AllDetailsReached(settings.butlers, settings.timeoutMillis, net)
    ensures r.Success? ==> StringOrder.StrictlyAscending(r.value)
    ensures r.Success? ==> forall a :: a in r.value <==>
      exists b <- settings.butlers :: a in Part(b, settings.timeoutMillis, net, UserAccountsOf)
  {
    var accounts :- FanOut(settings.butlers, settings.timeoutMillis, net, UserAccountsOf);
    FanOutMembers(settings.butlers, settings.timeoutMillis, net, UserAccountsOf);
    Success(StringOrder.Collect(accounts))
  }

  /** `assembleServiceAccounts`: the sorted, duplicate-free union of every butler's service accounts. */
  function AssembleServiceAccounts(settings: HooverSettings, net: Network<SnapshotDetail>): (r: Result<seq<string>>)
    ensures r.Success? <==> AllDetailsReached(settings.butlers, settings.timeoutMillis, net)
    ensures r.Success? ==> StringOrder.StrictlyAscending(r.value)
    ensures r.Success? ==> forall a :: a in r.value <==>
      exists b <- settings.butlers :: a in Part(b, settings.timeoutMillis, net, ServiceAccountsOf)
  {
    var accounts :- FanOut(settings.butlers, settings.timeoutMillis, net, ServiceAccountsOf);
    FanOutMembers(settings.butlers, settings.timeoutMillis, net, ServiceAccountsOf);
    Success(StringOrder.Collect(accounts))
  }

  /**
   * The user accounts would be the same set, in the same order, whatever order
   * the butlers' accounts arrived in and however often each was repeated.
   */
  lemma UserAccountsIgnoreArrivalOrder(settings: HooverSettings, net: Network<SnapshotDetail>, arrived: seq<string>)
    requires AllDetailsReached(settings.butlers, settings.timeoutMillis, net)
    requires forall a :: a in arrived <==>
      exists b <- settings.butlers :: a in Part(b, settings.timeoutMillis, net, UserAccountsOf)
    ensures AssembleUserAccounts(settings, net) == Success(StringOrder.Collect(arrived))
  {
    StringOrder.AscendingUnique(AssembleUserAccounts(settings, net).value, StringOrder.Collect(arrived));
  }

  /** The same for the service accounts. */
  lemma ServiceAccountsIgnoreArrivalOrder(settings: HooverSettings, net: Network<SnapshotDetail>, arrived: seq<string>)
    requires AllDetailsReached(settings.butlers, settings.timeoutMillis, net)
    requires forall a :: a in arrived <==>
      exists b <- settings.butlers :: a in Part(b, settings.timeoutMillis, net, ServiceAccountsOf)
    ensures AssembleServiceAccounts(settings, net) == Success(StringOrder.Collect(arrived))
  {
    StringOrder.AscendingUnique(AssembleServiceAccounts(settings, net).value, StringOrder.Collect(arrived));
  }

  /**
   * Two foundations, "prod" answering with three applications and "stage"
   * timing out: the merged list holds exactly prod's three, stamped "prod".
   */
  lemma OneFoundationTimesOut(
    prodAddress: string, stageAddress: string, doc: SnapshotDetail, timeoutMillis: nat, net: Network<SnapshotDetail>)
    requires |doc.applications| == 3
    requires DetailReply(Butler("prod", prodAddress), net).body == Document(doc)
    requires DetailReply(Butler("prod", prodAddress), net).latencyMillis < timeoutMillis
    requires TimedOut(DetailReply(Butler("stage", stageAddress), net), timeoutMillis)
    ensures
      var settings := HooverSettings([Butler("prod", prodAddress), Butler("stage", stageAddress)], false, timeoutMillis);
      var r := AssembleApplicationDetail(settings, net);
      && r.Success?
      && |r.value| == 3
      && (forall a <- r.value :: a.foundation == "prod")
  {
    var prod, stage := Butler("prod", prodAddress), Butler("stage", stageAddress);
    var butlers := [prod, stage];
    assert butlers[1..] == [stage];
    assert FetchDetail(prod, timeoutMillis, net) == Success(Some(doc));
    assert FetchDetail(stage, timeoutMillis, net) == Success(Some(EmptyDetail));
    assert FanOut([stage], timeoutMillis, net, ApplicationsOf) == Success([]) by {
      assert [stage][1..] == [];
      assert FanOut([], timeoutMillis, net, ApplicationsOf) == Success([]);
      assert ApplicationsOf(stage, EmptyDetail) == [];
      assert NothingReturned([stage], timeoutMillis, net);
      FanOutOfNothing([stage], timeoutMillis, net, ApplicationsOf);
    }
    assert ApplicationsOf(prod, doc) + [] == ApplicationsOf(prod, doc);
    assert FanOut(butlers, timeoutMillis, net, ApplicationsOf) == Success(ApplicationsOf(prod, doc));
  }

  // ---------------------------------------------------------------------------
  // The detail snapshot
  // ---------------------------------------------------------------------------

  /** The network answering each of the five fetch rounds of a detail snapshot. */
  datatype DetailRounds = DetailRounds(
    applications: Network<SnapshotDetail>,
    serviceInstances: Network<SnapshotDetail>,
    relationships: Network<SnapshotDetail>,
    userAccounts: Network<SnapshotDetail>,
    serviceAccounts: Network<SnapshotDetail>)

  /**
   * `assembleSnapshotDetail`: the five aggregations one after the other; the
   * first that fails ends the snapshot with its error.
   */
  function AssembleSnapshotDetail(settings: HooverSettings, rounds: DetailRounds): (r: Result<SnapshotDetail>)
    ensures
      var apps := AssembleApplicationDetail(settings, rounds.applications);
      var sis := AssembleServiceInstanceDetail(settings, rounds.serviceInstances);
      var rels := AssembleApplicationRelationships(settings, rounds.relationships);
      var users := AssembleUserAccounts(settings, rounds.userAccounts);
      var services := AssembleServiceAccounts(settings, rounds.serviceAccounts);
      && (r.Success? <==> apps.Success? && sis.Success? && rels.Success? && users.Success? && services.Success?)
      && (r.Success? ==> r.value == SnapshotDetail(apps.value, sis.value, rels.value, users.value, services.value))
      && (apps.Failure? ==> r.error == apps.error)
      && (apps.Success? && sis.Failure? ==> r.error == sis.error)
      && (apps.Success? && sis.Success? && rels.Failure? ==> r.error == rels.error)
      && (apps.Success? && sis.Success? && rels.Success? && users.Failure? ==> r.error == users.error)
      && (apps.Success? && sis.Success? && rels.Success? && users.Success? && services.Failure? ==>
            r.error == services.error)
  {
    var applications :- AssembleApplicationDetail(settings, rounds.applications);
    var serviceInstances :- AssembleServiceInstanceDetail(settings, rounds.serviceInstances);
    var relationships :- AssembleApplicationRelationships(settings, rounds.relationships);
    var userAccounts :- AssembleUserAccounts(settings, rounds.userAccounts);
    var serviceAccounts :- AssembleServiceAccounts(settings, rounds.serviceAccounts);
    Success(SnapshotDetail(applications, serviceInstances, relationships, userAccounts, serviceAccounts))
  }

  /**
   * When, in every round, every butler returns nothing or an empty document
   * (or times out, or gets an error response), the snapshot is empty and not
   * an error.
   */
  lemma SnapshotDetailOfEmptySources(settings: HooverSettings, rounds: DetailRounds)
    requires NothingReturned(settings.butlers, settings.timeoutMillis, rounds.applications)
    requires NothingReturned(settings.butlers, settings.timeoutMillis, rounds.serviceInstances)
    requires NothingReturned(settings.butlers, settings.timeoutMillis, rounds.relationships)
    requires NothingReturned(settings.butlers, settings.timeoutMillis, rounds.userAccounts)
    requires NothingReturned(settings.butlers, settings.timeoutMillis, rounds.serviceAccounts)
    ensures AssembleSnapshotDetail(settings, rounds) == Success(EmptyDetail)
  {
    var butlers, t := settings.butlers, settings.timeoutMillis;
    FanOutOfNothing(butlers, t, rounds.applications, ApplicationsOf);
    FanOutOfNothing(butlers, t, rounds.serviceInstances, ServiceInstancesOf);
    FanOutOfNothing(butlers, t, rounds.relationships, RelationshipsOf);
    FanOutOfNothing(butlers, t, rounds.userAccounts, UserAccountsOf);
    FanOutOfNothing(butlers, t, rounds.serviceAccounts, ServiceAccountsOf);
    assert StringOrder.Collect([]) == [];
  }

  // ---------------------------------------------------------------------------
  // The summary snapshot
  // ---------------------------------------------------------------------------

  /** The reply a butler's summary request receives in one round. */
  function SummaryReply(b: Butler, net: Network<SnapshotSummary>): Reply<SnapshotSummary>
  {
    net(b.name)(SummaryUri(BaseUrl(b.address)))
  }

  /** `obtainSnapshotSummary("https://" + address)` for one butler. */
  function FetchSummary(b: Butler, timeoutMillis: nat, net: Network<SnapshotSummary>): (r: Result<Option<SnapshotSummary>>)
    ensures r.Failure? <==> Fatal(SummaryReply(b, net), timeoutMillis)
    ensures r.Failure? ==> r.error == SummaryReply(b, net).body.message
    ensures r == Success(None) <==> Silent(SummaryReply(b, net), timeoutMillis)
    ensures Degraded(SummaryReply(b, net), timeoutMillis) ==> r == Success(Some(EmptySummary))
    ensures !Degraded(SummaryReply(b, net), timeoutMillis) && SummaryReply(b, net).body.Document? ==>
      r == Success(Some(SummaryReply(b, net).body.doc))
  {
    ObtainSnapshotSummary(BaseUrl(b.address), timeoutMillis, net(b.name))
  }

  /** No butler's summary request ends in an unrecovered error. */
  ghost predicate AllSummariesReached(butlers: seq<Butler>, timeoutMillis: nat, net: Network<SnapshotSummary>)
  {
    forall b <- butlers :: !Fatal(SummaryReply(b, net), timeoutMillis)
  }

  /** Every butler's summary request times out or gets an error response. */
  ghost predicate SummaryUnreachable(butlers: seq<Butler>, timeoutMillis: nat, net: Network<SnapshotSummary>)
  {
    forall b <- butlers :: Degraded(SummaryReply(b, net), timeoutMillis)
  }

  /** The summary a butler's fetch emits; only meaningful for a butler that emits one. */
  ghost function ReachedSummary(b: Butler, timeoutMillis: nat, net: Network<SnapshotSummary>): SnapshotSummary
  {
    match FetchSummary(b, timeoutMillis, net)
    case Success(Some(s)) => s
    case _ => EmptySummary
  }

  /**
   * Every registered butler except those that answer in time without a body,
   * in registry order; when the round succeeds, these are the butlers whose
   * summary fetch emits a summary.
   */
  ghost function Emitters(butlers: seq<Butler>, timeoutMillis: nat, net: Network<SnapshotSummary>): (r: seq<Butler>)
    ensures |r| <= |butlers|
    ensures forall b <- r :: b in butlers && !Silent(SummaryReply(b, net), timeoutMillis)
    ensures forall b <- butlers :: !Silent(SummaryReply(b, net), timeoutMillis) ==> b in r
    decreases |butlers|
  {
    if butlers == [] then []
    else
      var rest := Emitters(butlers[1..], timeoutMillis, net);
      assert forall b <- butlers[1..] :: b in butlers;
      assert forall b <- butlers :: b == butlers[0] || b in butlers[1..];
      if Silent(SummaryReply(butlers[0], net), timeoutMillis) then rest else [butlers[0]] + rest
  }

  /** Each butler that does not answer in time without a body is among the emitters as often as it is registered. */
  lemma {:induction false} EmittersOccurrences(butlers: seq<Butler>, timeoutMillis: nat, net: Network<SnapshotSummary>)
    ensures forall b :: multiset(Emitters(butlers, timeoutMillis, net))[b] ==
                        if Silent(SummaryReply(b, net), timeoutMillis) then 0 else multiset(butlers)[b]
    decreases |butlers|
  {
    if butlers != [] {
      EmittersOccurrences(butlers[1..], timeoutMillis, net);
      assert butlers == [butlers[0]] + butlers[1..];
      assert multiset(butlers) == multiset{butlers[0]} + multiset(butlers[1..]);
    }
  }

  /** When no butler answers without a body, every butler emits exactly one summary. */
  lemma {:induction false} EveryButlerEmits(butlers: seq<Butler>, timeoutMillis: nat, net: Network<SnapshotSummary>)
    requires forall b <- butlers :: !Silent(SummaryReply(b, net), timeoutMillis)
    ensures Emitters(butlers, timeoutMillis, net) == butlers
    decreases |butlers|
  {
    if butlers != [] {
      assert butlers[0] in butlers;
      assert forall b <- butlers[1..] :: b in butlers;
      EveryButlerEmits(butlers[1..], timeoutMillis, net);
      assert butlers == [butlers[0]] + butlers[1..];
    }
  }

  /** One counts value per butler that emits a summary, in registry order. */
  ghost function PerButlerCounts(
    butlers: seq<Butler>, timeoutMillis: nat, net: Network<SnapshotSummary>,
    select: SnapshotSummary -> Counts): seq<Counts>
  {
    var emitters := Emitters(butlers, timeoutMillis, net);
    seq(|emitters|, i requires 0 <= i < |emitters| => select(ReachedSummary(emitters[i], timeoutMillis, net)))
  }

  /** `butlers.flatMap(b -> obtainSnapshotSummary(..)).map(select).collectList()`. */
  function CollectCounts(
    butlers: seq<Butler>, timeoutMillis: nat, net: Network<SnapshotSummary>,
    select: SnapshotSummary -> Counts): (r: Result<seq<Counts>>)
    ensures r.Success? <==> AllSummariesReached(butlers, timeoutMillis, net)
    ensures r.Success? ==> |r.value| == |Emitters(butlers, timeoutMillis, net)|
    ensures r.Success? ==> forall i :: 0 <= i < |r.value| ==>
      var b := Emitters(butlers, timeoutMillis, net)[i];
      FetchSummary(b, timeoutMillis, net) == Success(Some(ReachedSummary(b, timeoutMillis, net)))
      && r.value[i] == select(ReachedSummary(b, timeoutMillis, net))
    ensures r.Failure? ==>
      exists b <- butlers :: Fatal(SummaryReply(b, net), timeoutMillis) && r.error == SummaryReply(b, net).body.message
    decreases |butlers|
  {
    if butlers == [] then Success([])
    else
      var fetched :- FetchSummary(butlers[0], timeoutMillis, net);
      var rest :- CollectCounts(butlers[1..], timeoutMillis, net, select);
      assert butlers == [butlers[0]] + butlers[1..];
      if fetched.Some? then Success([select(fetched.value)] + rest) else Success(rest)
  }

  function ApplicationCountsOf(s: SnapshotSummary): Counts { s.applicationCounts }
  function ServiceInstanceCountsOf(s: SnapshotSummary): Counts { s.serviceInstanceCounts }

  /** `assembleApplicationCounts`: the per-butler application counts, reduced by `aggregate`. */
  function AssembleApplicationCounts(
    settings: HooverSettings, net: Network<SnapshotSummary>,
    aggregate: seq<ApplicationCounts> -> ApplicationCounts): (r: Result<ApplicationCounts>)
    ensures r.Success? <==> AllSummariesReached(settings.butlers, settings.timeoutMillis, net)
    ensures r.Success? ==>
      r.value == aggregate(PerButlerCounts(settings.butlers, settings.timeoutMillis, net, ApplicationCountsOf))
  {
    var counts :- CollectCounts(settings.butlers, settings.timeoutMillis, net, ApplicationCountsOf);
    assert counts == PerButlerCounts(settings.butlers, settings.timeoutMillis, net, ApplicationCountsOf);
    Success(aggregate(counts))
  }

  /** `assembleServiceInstanceCounts`: the per-butler service-instance counts, reduced by `aggregate`. */
  function AssembleServiceInstanceCounts(
    settings: HooverSettings, net: Network<SnapshotSummary>,
    aggregate: seq<ServiceInstanceCounts> -> ServiceInstanceCounts): (r: Result<ServiceInstanceCounts>)
    ensures r.Success? <==> AllSummariesReached(settings.butlers, settings.timeoutMillis, net)
    ensures r.Success? ==>
      r.value == aggregate(PerButlerCounts(settings.butlers, settings.timeoutMillis, net, ServiceInstanceCountsOf))
  {
    var counts :- CollectCounts(settings.butlers, settings.timeoutMillis, net, ServiceInstanceCountsOf);
    assert counts == PerButlerCounts(settings.butlers, settings.timeoutMillis, net, ServiceInstanceCountsOf);
    Success(aggregate(counts))
  }

  /** The network answering each of the two fetch rounds of a summary snapshot. */
  datatype SummaryRounds = SummaryRounds(
    applicationCounts: Network<SnapshotSummary>,
    serviceInstanceCounts: Network<SnapshotSummary>)

  /** `assembleSnapshotSummary`: the two reduced counts, the application counts first. */
  function AssembleSnapshotSummary(
    settings: HooverSettings, rounds: SummaryRounds,
    aggregateApplications: seq<ApplicationCounts> -> ApplicationCounts,
    aggregateServiceInstances: seq<ServiceInstanceCounts> -> ServiceInstanceCounts): (r: Result<SnapshotSummary>)
    ensures
      var apps := AssembleApplicationCounts(settings, rounds.applicationCounts, aggregateApplications);
      var sis := AssembleServiceInstanceCounts(settings, rounds.serviceInstanceCounts, aggregateServiceInstances);
      && (r.Success? <==> apps.Success? && sis.Success?)
      && (r.Success? ==> r.value == SnapshotSummary(apps.value, sis.value))
      && (apps.Failure? ==> r.error == apps.error)
      && (apps.Success? && sis.Failure? ==> r.error == sis.error)
  {
    var applicationCounts :- AssembleApplicationCounts(settings, rounds.applicationCounts, aggregateApplications);
    var serviceInstanceCounts :- AssembleServiceInstanceCounts(settings, rounds.serviceInstanceCounts, aggregateServiceInstances);
    Success(SnapshotSummary(applicationCounts, serviceInstanceCounts))
  }

  /**
   * With the category-wise sum as the reduction, the counts do not depend on
   * the order in which the butlers' summaries arrive.
   */
  lemma ApplicationCountsIgnoreArrivalOrder(settings: HooverSettings, net: Network<SnapshotSummary>, arrived: seq<Counts>)
    requires AllSummariesReached(settings.butlers, settings.timeoutMillis, net)
    requires multiset(arrived) == multiset(PerButlerCounts(settings.butlers, settings.timeoutMillis, net, ApplicationCountsOf))
    ensures AssembleApplicationCounts(settings, net, CountsReducer.Aggregate) == Success(CountsReducer.Aggregate(arrived))
  {
    CountsReducer.AggregatePermutation(
      arrived, PerButlerCounts(settings.butlers, settings.timeoutMillis, net, ApplicationCountsOf));
  }

  /** The same for the service-instance counts. */
  lemma ServiceInstanceCountsIgnoreArrivalOrder(settings: HooverSettings, net: Network<SnapshotSummary>, arrived: seq<Counts>)
    requires AllSummariesReached(settings.butlers, settings.timeoutMillis, net)
    requires multiset(arrived) == multiset(PerButlerCounts(settings.butlers, settings.timeoutMillis, net, ServiceInstanceCountsOf))
    ensures AssembleServiceInstanceCounts(settings, net, CountsReducer.Aggregate) == Success(CountsReducer.Aggregate(arrived))
  {
    CountsReducer.AggregatePermutation(
      arrived, PerButlerCounts(settings.butlers, settings.timeoutMillis, net, ServiceInstanceCountsOf));
  }

  /**
   * Every butler's summary fetch completes with nothing or with the empty
   * summary: it times out, gets an error response, or answers in time with no
   * body or a summary without counts.
   */
  ghost predicate NoSummaryReturned(butlers: seq<Butler>, timeoutMillis: nat, net: Network<SnapshotSummary>)
  {
    forall b <- butlers ::
      FetchSummary(b, timeoutMillis, net) == Success(None) || FetchSummary(b, timeoutMillis, net) == Success(Some(EmptySummary))
  }

  /** A butler that times out or gets an error response returns the empty summary. */
  lemma UnreachableReturnsNoSummary(butlers: seq<Butler>, timeoutMillis: nat, net: Network<SnapshotSummary>)
    requires SummaryUnreachable(butlers, timeoutMillis, net)
    ensures forall b <- butlers :: FetchSummary(b, timeoutMillis, net) == Success(Some(EmptySummary))
    ensures NoSummaryReturned(butlers, timeoutMillis, net)
  {
  }

  /** Butlers that return nothing or the empty summary contribute only empty counts. */
  lemma EmptySourcesCountNothing(
    butlers: seq<Butler>, timeoutMillis: nat, net: Network<SnapshotSummary>, select: SnapshotSummary -> Counts)
    requires NoSummaryReturned(butlers, timeoutMillis, net)
    requires select(EmptySummary) == map[]
    ensures forall c <- PerButlerCounts(butlers, timeoutMillis, net, select) :: c == map[]
  {
    var emitters := Emitters(butlers, timeoutMillis, net);
    var cs := PerButlerCounts(butlers, timeoutMillis, net, select);
    forall i | 0 <= i < |cs|
      ensures cs[i] == map[]
    {
      assert emitters[i] in emitters;
      assert ReachedSummary(emitters[i], timeoutMillis, net) == EmptySummary;
    }
  }

  /**
   * When, in both rounds, every butler returns nothing or the empty summary (or
   * times out, or gets an error response), the summed summary is empty and not
   * an error.
   */
  lemma SnapshotSummaryOfEmptySources(settings: HooverSettings, rounds: SummaryRounds)
    requires NoSummaryReturned(settings.butlers, settings.timeoutMillis, rounds.applicationCounts)
    requires NoSummaryReturned(settings.butlers, settings.timeoutMillis, rounds.serviceInstanceCounts)
    ensures AssembleSnapshotSummary(settings, rounds, CountsReducer.Aggregate, CountsReducer.Aggregate) == Success(EmptySummary)
  {
    var butlers, t := settings.butlers, settings.timeoutMillis;
    var apps := PerButlerCounts(butlers, t, rounds.applicationCounts, ApplicationCountsOf);
    var sis := PerButlerCounts(butlers, t, rounds.serviceInstanceCounts, ServiceInstanceCountsOf);
    EmptySourcesCountNothing(butlers, t, rounds.applicationCounts, ApplicationCountsOf);
    EmptySourcesCountNothing(butlers, t, rounds.serviceInstanceCounts, ServiceInstanceCountsOf);
    CountsReducer.AggregateOfNothing(apps);
    CountsReducer.AggregateOfNothing(sis);
  }

  /** The default registry is empty: both snapshots are empty and nothing fails. */
  lemma DefaultSettingsYieldEmptySnapshots(details: DetailRounds, summaries: SummaryRounds)
    ensures AssembleSnapshotDetail(DefaultSettings, details) == Success(EmptyDetail)
    ensures AssembleSnapshotSummary(DefaultSettings, summaries, CountsReducer.Aggregate, CountsReducer.Aggregate)
         == Success(EmptySummary)
  {
  }
}
