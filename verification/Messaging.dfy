/** Paging back through a thread that may grow between two fetches. */
module Messaging {
  import opened Common

  const PAGE_SIZE := 50

  function Reverse<T>(s: seq<T>): (r: seq<T>)
    ensures |r| == |s|
  {
    if s == [] then [] else Reverse(s[1..]) + [s[0]]
  }

  lemma {:induction false} ReverseAt<T>(s: seq<T>, i: nat)
    requires i < |s|
    ensures Reverse(s)[i] == s[|s| - 1 - i]
  {
    if i < |s| - 1 {
      ReverseAt(s[1..], i);
    }
  }

  function Skip<T>(s: seq<T>, n: nat): seq<T> {
    if n < |s| then s[n..] else []
  }

  function Limit<T>(s: seq<T>, n: nat): seq<T> {
    if n < |s| then s[..n] else s
  }

  /** Page `n` of a thread in creation order: newest first, skip, limit, and turned round again. */
  function Page<T>(thread: seq<T>, n: nat): seq<T>
    requires n >= 1
  {
    Reverse(Limit(Skip(Reverse(thread), (n - 1) * PAGE_SIZE), PAGE_SIZE))
  }

  /** How many messages of a thread of length `len` are older than its `n` newest pages. */
  function Older(len: nat, n: nat): nat {
    Max(0, len - n * PAGE_SIZE)
  }

  /** A page is a stretch of the thread in chronological order. */
  lemma PageIsStretch<T>(thread: seq<T>, n: nat)
    requires n >= 1
    ensures Page(thread, n) == thread[Older(|thread|, n)..Older(|thread|, n - 1)]
    ensures Older(|thread|, n) == Max(0, |thread| - 50 * n)
  {
    var from := (n - 1) * PAGE_SIZE;
    var newest := Reverse(thread);
    var cut := Limit(Skip(newest, from), PAGE_SIZE);
    var lo, hi := Older(|thread|, n), Older(|thread|, n - 1);
    assert |cut| == hi - lo;
    forall i | 0 <= i < |cut|
      ensures Reverse(cut)[i] == thread[lo..hi][i]
    {
      var j := |cut| - 1 - i;
      ReverseAt(cut, i);
      assert cut[j] == newest[from + j];
      ReverseAt(thread, from + j);
    }
  }

  /** The pages `n`, ..., 1, laid end to end. */
  function Pages<T>(thread: seq<T>, n: nat): seq<T> {
    if n == 0 then [] else Page(thread, n) + Pages(thread, n - 1)
  }

  lemma JoinStretches<T>(thread: seq<T>, lo: nat, hi: nat)
    requires lo <= hi <= |thread|
    ensures thread[lo..hi] + thread[hi..] == thread[lo..]
  {
  }

  lemma {:induction false} PagesAreTail<T>(thread: seq<T>, n: nat)
    ensures Pages(thread, n) == thread[Older(|thread|, n)..]
  {
    if n > 0 {
      PagesAreTail(thread, n - 1);
      PageIsStretch(thread, n);
      JoinStretches(thread, Older(|thread|, n), Older(|thread|, n - 1));
    }
  }

  /** Nothing is lost, repeated or out of order: the first `n` pages are the tail of the thread, and they
      are the whole thread exactly when there are enough of them. */
  lemma PagesPartitionThread<T>(thread: seq<T>, n: nat)
    ensures Pages(thread, n) == thread[Older(|thread|, n)..]
    ensures Pages(thread, n) == thread <==> |thread| <= n * 50
  {
    PagesAreTail(thread, n);
    var lo := Older(|thread|, n);
    if lo == 0 {
      assert thread[lo..] == thread;
    } else {
      assert |thread[lo..]| < |thread|;
    }
  }

  // ---------------------------------------------------------------- a thread that grows while it is read

  /** `lens[i]` is the length of the thread when page `i + 1` is fetched. */
  ghost predicate Growing(lens: seq<nat>) {
    forall i, j :: 0 <= i <= j < |lens| ==> lens[i] <= lens[j]
  }

  /** The fetch of page `i + 1` covers these positions of the thread. */
  predicate Covers(lens: seq<nat>, i: nat, x: int)
    requires i < |lens|
  {
    Older(lens[i], i + 1) <= x < Older(lens[i], i)
  }

  /** What a fetch returns is what the finished thread has at those positions. */
  lemma FetchIsStretch<T>(thread: seq<T>, lens: seq<nat>, i: nat)
    requires i < |lens| && lens[i] <= |thread|
    ensures Page(thread[..lens[i]], i + 1) == thread[Older(lens[i], i + 1)..Older(lens[i], i)]
  {
    PageIsStretch(thread[..lens[i]], i + 1);
  }

  /** Position `x` is among the first `k` fetches. */
  ghost predicate Seen(lens: seq<nat>, k: nat, x: int)
    requires k <= |lens|
  {
    exists i: nat :: i < k && Covers(lens, i, x)
  }

  /** The position of the oldest message fetched so far. */
  function Oldest(lens: seq<nat>, k: nat): int
    requires 1 <= k <= |lens|
  {
    var lo := Older(lens[k - 1], k);
    if k == 1 then lo else Min(Oldest(lens, k - 1), lo)
  }

  /** The position just after the newest message fetched so far. */
  function Newest(lens: seq<nat>, k: nat): int
    requires 1 <= k <= |lens|
  {
    var hi := Older(lens[k - 1], k - 1);
    if k == 1 then hi else Max(Newest(lens, k - 1), hi)
  }

  lemma SeenNext(lens: seq<nat>, k: nat, x: int)
    requires k < |lens|
    ensures Seen(lens, k + 1, x) <==> Seen(lens, k, x) || Covers(lens, k, x)
  {
    if Seen(lens, k, x) {
      var i: nat :| i < k && Covers(lens, i, x);
      assert i < k + 1;
    }
    if Covers(lens, k, x) {
      assert k < k + 1;
    }
  }

  lemma {:induction false} SeenBounds(lens: seq<nat>, k: nat, x: int)
    requires 1 <= k <= |lens|
    ensures Oldest(lens, k) <= Older(lens[k - 1], k)
    ensures Oldest(lens, k) <= Newest(lens, k)
    ensures Seen(lens, k, x) ==> Oldest(lens, k) <= x < Newest(lens, k)
  {
    SeenNext(lens, k - 1, x);
    if k > 1 {
      SeenBounds(lens, k - 1, x);
    } else {
      assert !Seen(lens, 0, x);
    }
  }

  /** However many messages arrive between the fetches, nothing between the oldest message seen and the
      newest of the first page is skipped. */
  lemma {:induction false} NothingSkipped(lens: seq<nat>, k: nat, x: int)
    requires 1 <= k <= |lens| && Growing(lens)
    requires Oldest(lens, k) <= x < lens[0]
    ensures Seen(lens, k, x)
  {
    SeenNext(lens, k - 1, x);
    if k > 1 {
      SeenBounds(lens, k - 1, x);
      assert lens[k - 2] <= lens[k - 1];
      if Oldest(lens, k - 1) <= x {
        NothingSkipped(lens, k - 1, x);
      }
    }
  }

  /** The messages seen are one unbroken stretch up to the newest of them. */
  ghost predicate Block(lens: seq<nat>, k: nat)
    requires 1 <= k <= |lens|
  {
    forall x: int :: Oldest(lens, k) <= x < Newest(lens, k) ==> Seen(lens, k, x)
  }

  /** The next page reaches down to what has been seen. */
  predicate Reaches(lens: seq<nat>, k: nat)
    requires 1 <= k < |lens|
  {
    Older(lens[k], k + 1) <= Newest(lens, k)
  }

  lemma BlockGrows(lens: seq<nat>, k: nat)
    requires 1 <= k < |lens| && Growing(lens) && Block(lens, k)
    ensures Block(lens, k + 1) <==> Reaches(lens, k)
  {
    var x0 := Newest(lens, k);
    SeenBounds(lens, k, x0);
    assert lens[k - 1] <= lens[k];
    if Reaches(lens, k) {
      var n := k + 1;
      forall x: int | Oldest(lens, n) <= x < Newest(lens, n)
        ensures Seen(lens, n, x)
      {
        SeenNext(lens, k, x);
      }
    } else {
      SeenNext(lens, k, x0);
      SeenBounds(lens, k, x0);
      assert Oldest(lens, k + 1) <= x0 < Newest(lens, k + 1) && !Seen(lens, k + 1, x0);
    }
  }

  lemma FirstPageIsBlock(lens: seq<nat>)
    requires 1 <= |lens|
    ensures Block(lens, 1)
  {
    forall x: int | Oldest(lens, 1) <= x < Newest(lens, 1)
      ensures Seen(lens, 1, x)
    {
      assert Covers(lens, 0, x);
    }
  }

  /** The fetched pages are an unbroken block after every fetch exactly when each next page still reaches
      the block: the thread, less the pages up to and including that one, is no longer than the newest
      position seen. */
  lemma {:induction false} BlockExactly(lens: seq<nat>, k: nat)
    requires 1 <= k <= |lens| && Growing(lens)
    ensures (forall j :: 1 <= j <= k ==> Block(lens, j)) <==> (forall j :: 1 <= j < k ==> Reaches(lens, j))
  {
    FirstPageIsBlock(lens);
    if k > 1 {
      BlockExactly(lens, k - 1);
      if forall j :: 1 <= j <= k - 1 ==> Block(lens, j) {
        BlockGrows(lens, k - 1);
      }
    }
  }

  /** In particular when at most two pages' worth of messages arrive between consecutive fetches. */
  lemma {:induction false} BlockWhenFewArrive(lens: seq<nat>, k: nat)
    requires 1 <= k <= |lens| && Growing(lens)
    requires forall i :: 1 <= i < k ==> lens[i] <= lens[i - 1] + 100
    ensures Block(lens, k)
  {
    forall j | 1 <= j < k
      ensures Reaches(lens, j)
    {
      assert lens[j] <= lens[j - 1] + 100;
      assert Older(lens[j - 1], j - 1) <= Newest(lens, j);
    }
    BlockExactly(lens, k);
  }

  /** One message more than that between the first two fetches, and one message is missed. */
  lemma TooManyArriveLeavesGap(len: nat)
    requires len > 0
    ensures
      var lens := [len, len + 101];
      Seen(lens, 2, len - 1) && !Seen(lens, 2, len) && Seen(lens, 2, len + 1)
  {
    var lens := [len, len + 101];
    assert Covers(lens, 0, len - 1);
    assert Covers(lens, 1, len + 1);
    assert !Covers(lens, 0, len) && !Covers(lens, 1, len);
  }

  // ---------------------------------------------------------------- the service

  datatype Message = Message(sender: nat, text: string, imageUrl: Option<string>, readBy: seq<nat>, createdAt: int)

  datatype Conversation = Conversation(participants: seq<nat>, lastMessageAt: int)

  datatype Error = NotFound | NotAParticipant | BadPage

  /** `threads` holds each conversation's messages in creation order. */
  class MessagingService {
    var conversations: map<nat, Conversation>
    var threads: map<nat, seq<Message>>

    constructor (conversations: map<nat, Conversation>)
      ensures this.conversations == conversations && threads == map[]
    {
      this.conversations, threads := conversations, map[];
    }

    function ThreadOf(id: nat): seq<Message>
      reads this
    {
      if id in threads then threads[id] else []
    }

    method AssertParticipant(user: nat, id: nat) returns (r: Result<Conversation, Error>)
      ensures id !in conversations ==> r == Err(NotFound)
      ensures id in conversations && user !in conversations[id].participants ==> r == Err(NotAParticipant)
      ensures id in conversations && user in conversations[id].participants ==> r == Ok(conversations[id])
    {
      if id !in conversations {
        return Err(NotFound);
      }
      if user !in conversations[id].participants {
        return Err(NotAParticipant);
      }
      r := Ok(conversations[id]);
    }

    /** A page is the stretch of the thread that it stands for; a page number below 1 would skip a
        negative count, which the database refuses. */
    method GetConversation(user: nat, id: nat, page: int) returns (r: Result<seq<Message>, Error>)
      ensures r.Ok? <==> id in conversations && user in conversations[id].participants && page >= 1
      ensures r.Ok? ==>
                var thread := ThreadOf(id);
                r.value == thread[Max(0, |thread| - 50 * page)..Max(0, |thread| - 50 * (page - 1))]
      ensures id !in conversations ==> r == Err(NotFound)
      ensures id in conversations && user !in conversations[id].participants ==> r == Err(NotAParticipant)
      ensures r == Err(BadPage) <==>
                id in conversations && user in conversations[id].participants && page < 1
    {
      var conversation := AssertParticipant(user, id);
      if conversation.Err? {
        return Err(conversation.error);
      }
      if page < 1 {
        return Err(BadPage);
      }
      var newestFirst := Reverse(ThreadOf(id));
      var messages := Limit(Skip(newestFirst, (page - 1) * PAGE_SIZE), PAGE_SIZE);
      PageIsStretch(ThreadOf(id), page);
      r := Ok(Reverse(messages));
    }

    /** Appends to one thread and touches no other. */
    method SendMessage(user: nat, id: nat, text: string, imageUrl: Option<string>, at: int)
      returns (r: Result<Message, Error>)
      modifies this
      ensures r.Ok? <==> id in old(conversations) && user in old(conversations)[id].participants
      ensures id !in old(conversations) ==> r == Err(NotFound)
      ensures id in old(conversations) && user !in old(conversations)[id].participants ==> r == Err(NotAParticipant)
      ensures r.Err? ==> conversations == old(conversations) && threads == old(threads)
      ensures r.Ok? ==>
                && r.value == Message(user, text, imageUrl, [user], at)
                && threads == old(threads)[id := old(ThreadOf(id)) + [r.value]]
                && conversations == old(conversations)[id := old(conversations)[id].(lastMessageAt := at)]
    {
      var conversation := AssertParticipant(user, id);
      if conversation.Err? {
        return Err(conversation.error);
      }
      var message := Message(user, text, imageUrl, [user], at);
      threads := threads[id := ThreadOf(id) + [message]];
      conversations := conversations[id := conversation.value.(lastMessageAt := at)];
      r := Ok(message);
    }
  }
}
