/** Namespace sharding: which replica is responsible for which namespace. */
module Sharding {
  import opened Decimal
  import opened Hashing
  import opened Wrappers

  const TWO_TO_THE_32 := 0x1_0000_0000

  /** A number of shards that the division survives: cut off to 32 bits it is not zero. */
  predicate Divides(total: int)
  {
    1 <= total && total % TWO_TO_THE_32 != 0
  }

  /** The shard number, by the total cut off to 32 bits. */
  function NamespaceShard(ns: string, total: int): (shard: int)
    requires Divides(total)
    ensures 0 <= shard < total
  {
    (Fnv1a(Utf8(ns)) as int) % (total % TWO_TO_THE_32)
  }

  /**
   * The shard of a namespace, for every number of shards, is one 32-bit FNV-1a hash modulo the number cut
   * off to 32 bits. The hash is taken over the bytes that decode to the namespace.
   */
  lemma ShardIsHash(ns: string) returns (bytes: seq<Byte>, states: seq<bv32>)
    ensures |Points(bytes)| == |ns| && forall i :: 0 <= i < |ns| ==> Points(bytes)[i] == ns[i] as int
    ensures (forall i :: 0 <= i < |ns| ==> ns[i] as int < 0x80) ==>
      |bytes| == |ns| && forall i :: 0 <= i < |ns| ==> bytes[i] as int == ns[i] as int
    ensures FnvStates(bytes, states)
    ensures forall total: int :: total >= 1 && total % 0x1_0000_0000 != 0 ==>
      NamespaceShard(ns, total) == (states[|bytes|] as int) % (total % 0x1_0000_0000)
  {
    bytes := Utf8(ns);
    Utf8RoundTrip(ns);
    if forall i :: 0 <= i < |ns| ==> ns[i] as int < 0x80 {
      Utf8OfAscii(ns);
    }
    states := FnvEnds(bytes);
  }

  lemma Utf8OfFoobar()
    ensures Utf8("foobar") == [0x66, 0x6F, 0x6F, 0x62, 0x61, 0x72]
  {
    Utf8OfAscii("foobar");
    assert |"foobar"| == 6;
  }

  /** The published vectors, at the shards of the namespaces "a" and "foobar". */
  lemma ShardVectors()
    ensures NamespaceShard("a", 0xFFFF_FFFF) == 0xE40C_292C
    ensures NamespaceShard("foobar", 0xFFFF_FFFF) == 0xBF9C_F968
    ensures NamespaceShard("foobar", 3) == 1 && NamespaceShard("foobar", 0x1_0000_0003) == 1
  {
    FnvVectors();
    Utf8OfFoobar();
    Utf8OfAscii("a");
    assert Utf8("a") == [0x61];
    assert (0xE40C_292C as bv32) as int == 0xE40C_292C;
    assert (0xBF9C_F968 as bv32) as int == 0xBF9C_F968;
  }

  // ----- strings.LastIndex -----

  function LastIndex(s: string, c: char): (i: int)
    ensures -1 <= i < |s|
    ensures i == -1 ==> c !in s
    ensures i >= 0 ==> s[i] == c && c !in s[i + 1..]
  {
    if s == "" then -1
    else if s[|s| - 1] == c then |s| - 1
    else
      var i := LastIndex(s[..|s| - 1], c);
      assert s == s[..|s| - 1] + [s[|s| - 1]];
      assert i >= 0 ==> s[i + 1..] == s[..|s| - 1][i + 1..] + [s[|s| - 1]];
      i
  }

  // ----- the three functions of the exporter's main -----

  /** The configured index, or the one in the host name; os.Hostname is the parameter `hostname`. */
  function ResolveShardIndex(total: int, configured: int, hostname: Result<string>): Result<int>
  {
    if configured >= 0 then
      if configured >= total then Err("shard-index out of range") else Ok(configured)
    else if hostname.Err? then Err("resolve hostname for shard index")
    else
      var host := hostname.value;
      var lastDash := LastIndex(host, '-');
      if lastDash < 0 || lastDash == |host| - 1 then Err("unable to derive shard-index from hostname")
      else
        var autoIndex := Atoi(host[lastDash + 1..]);
        if autoIndex.Err? then Err("invalid shard suffix in hostname")
        else if autoIndex.value < 0 || autoIndex.value >= total then Err("derived shard index out of range")
        else autoIndex
  }

  predicate InScope(target: string, ns: string) { target == "" || ns == target }

  predicate InShard(target: string, total: int, index: int, ns: string)
    requires Divides(total)
  {
    InScope(target, ns) && ns != "" && NamespaceShard(ns, total) == index
  }

  datatype Partition = Partition(matcher: string -> bool, mode: string, index: int)

  function BuildNamespaceMatcher(target: string, total: int, index: int, hostname: Result<string>): Result<Partition>
    requires total > 1 ==> Divides(total)
  {
    if total < 1 then Err("shard-total must be >= 1")
    else if total == 1 then
      if index > 0 then Err("shard-index must be 0 or -1 when shard-total is 1")
      else Ok(Partition((ns: string) => InScope(target, ns), "single", 0))
    else
      var resolved := ResolveShardIndex(total, index, hostname);
      if resolved.Err? then Err(resolved.message)
      else Ok(Partition((ns: string) => InShard(target, total, resolved.value, ns), "shard", resolved.value))
  }

  // ----- the StatefulSet round trip -----

  lemma DigitsHaveNoDash(n: nat)
    ensures Itoa(n) != "" && '-' !in Itoa(n)
  {
    DigitsParse(n);
  }

  /** The suffix is what follows the last dash of the host name. */
  predicate Splits(host: string, base: string, suffix: string)
  {
    host == base + "-" + suffix && '-' !in suffix
  }

  lemma LastDash(host: string, base: string, suffix: string)
    requires Splits(host, base, suffix)
    ensures LastIndex(host, '-') == |base| && host[|base| + 1..] == suffix
  {
    var i := LastIndex(host, '-');
    assert host[|base|] == '-';
    assert i >= 0 ==> forall j :: i < j < |host| ==> host[j] == host[i + 1..][j - i - 1];
    assert forall j :: |base| < j < |host| ==> host[j] == suffix[j - |base| - 1];
    assert host[|base| + 1..] == suffix;
  }

  lemma ResolvesFrom(host: string, base: string, suffix: string, total: int, configured: int, i: int)
    requires configured < 0 && Splits(host, base, suffix)
    ensures ResolveShardIndex(total, configured, Ok(host)) == Ok(i) <==> Atoi(suffix) == Ok(i) && 0 <= i < total
  {
    LastDash(host, base, suffix);
  }

  /** Exactly which host names resolve to a given index when none is configured. */
  lemma HostnameResolves(host: string, total: int, configured: int, i: int)
    requires configured < 0
    ensures ResolveShardIndex(total, configured, Ok(host)) == Ok(i) <==>
      (0 <= i < total && exists base, suffix :: Splits(host, base, suffix) && Atoi(suffix) == Ok(i))
  {
    var d := LastIndex(host, '-');
    if d >= 0 {
      assert Splits(host, host[..d], host[d + 1..]);
      ResolvesFrom(host, host[..d], host[d + 1..], total, configured, i);
    }
    if base, suffix :| Splits(host, base, suffix) && Atoi(suffix) == Ok(i) {
      ResolvesFrom(host, base, suffix, total, configured, i);
    }
  }

  /** A configured index resolves to itself, and only if it is below the total; the host name is not asked. */
  lemma ConfiguredResolves(total: int, configured: int, hostname: Result<string>, i: int)
    requires configured >= 0
    ensures ResolveShardIndex(total, configured, hostname) == Ok(i) <==> i == configured && configured < total
  {}

  /** Without a configured index and a host name there is no shard. */
  lemma NoHostname(total: int, configured: int, why: string)
    requires configured < 0
    ensures ResolveShardIndex(total, configured, Err(why)).Err?
  {}

  /** A StatefulSet replica's host name resolves to its ordinal. */
  lemma OrdinalRoundTrip(base: string, i: nat, total: int, configured: int)
    requires configured < 0 && i < total && i <= MAX_INT64
    ensures ResolveShardIndex(total, configured, Ok(base + "-" + Itoa(i))) == Ok(i)
  {
    AtoiItoa(i);
    DigitsHaveNoDash(i);
    ResolvesFrom(base + "-" + Itoa(i), base, Itoa(i), total, configured, i);
  }

  /** The matcher of replica `i` of a StatefulSet that leaves the index to the host name. */
  function Replica(target: string, total: int, base: string, i: nat): Result<Partition>
    requires total > 1 ==> Divides(total)
  {
    BuildNamespaceMatcher(target, total, -1, Ok(base + "-" + Itoa(i)))
  }

  /** What a matcher lets through: the non-empty namespaces in scope of one shard. */
  ghost predicate AdmitsShard(matcher: string -> bool, target: string, total: int, index: int)
    requires Divides(total)
  {
    forall ns :: matcher(ns) <==> (target == "" || ns == target) && ns != "" && NamespaceShard(ns, total) == index
  }

  /** With two or more shards, a replica starts exactly if its index resolves, in shard mode with that index. */
  lemma ShardModeIs(target: string, total: int, configured: int, hostname: Result<string>, i: int)
    requires total >= 2 && Divides(total) && ResolveShardIndex(total, configured, hostname) == Ok(i)
    ensures var r := BuildNamespaceMatcher(target, total, configured, hostname);
      r.Ok? && r.value.mode == "shard" && r.value.index == i && AdmitsShard(r.value.matcher, target, total, i)
  {}

  /** Whether a replica starts at all, and what it does when there is a single shard. */
  lemma StartsWhen(target: string, total: int, configured: int, hostname: Result<string>)
    requires total > 1 ==> Divides(total)
    ensures var r := BuildNamespaceMatcher(target, total, configured, hostname);
      && (r.Ok? <==> (total == 1 && configured <= 0)
                     || (total >= 2 && ResolveShardIndex(total, configured, hostname).Ok?))
      && (total == 1 && r.Ok? ==>
            && r.value.mode == "single" && r.value.index == 0
            && forall ns :: r.value.matcher(ns) <==> target == "" || ns == target)
  {}

  lemma ReplicaIs(target: string, total: int, base: string, i: nat)
    requires 2 <= total <= MAX_INT64 && Divides(total) && i < total
    ensures var r := Replica(target, total, base, i);
      r.Ok? && r.value.mode == "shard" && r.value.index == i && AdmitsShard(r.value.matcher, target, total, i)
  {
    OrdinalRoundTrip(base, i, total, -1);
    ShardModeIs(target, total, -1, Ok(base + "-" + Itoa(i)), i);
  }

  /** A replica with its index configured is the same, whatever its host name, and even without one. */
  lemma ConfiguredReplicaIs(target: string, total: int, i: nat, hostname: Result<string>)
    requires 2 <= total && Divides(total) && i < total
    ensures var r := BuildNamespaceMatcher(target, total, i, hostname);
      r.Ok? && r.value.mode == "shard" && r.value.index == i && AdmitsShard(r.value.matcher, target, total, i)
  {
    ConfiguredResolves(total, i, hostname, i);
    ShardModeIs(target, total, i, hostname, i);
  }

  /** One replica of each index: every non-empty namespace in scope passes exactly one matcher. */
  lemma ExactlyOneMatcher(target: string, total: int, matchers: seq<string -> bool>, ns: string)
    requires Divides(total) && |matchers| == total
    requires forall i :: 0 <= i < total ==> AdmitsShard(matchers[i], target, total, i)
    ensures forall i, j :: 0 <= i < total && 0 <= j < total && matchers[i](ns) && matchers[j](ns) ==> i == j
    ensures (target == "" || ns == target) && ns != "" <==> exists i :: 0 <= i < total && matchers[i](ns)
  {
    if (target == "" || ns == target) && ns != "" {
      var i := NamespaceShard(ns, total);
      assert AdmitsShard(matchers[i], target, total, i);
      assert matchers[i](ns);
    }
    forall i, j | 0 <= i < total && 0 <= j < total && matchers[i](ns) && matchers[j](ns) ensures i == j {
      assert AdmitsShard(matchers[i], target, total, i) && AdmitsShard(matchers[j], target, total, j);
    }
    forall i | 0 <= i < total && matchers[i](ns) ensures (target == "" || ns == target) && ns != "" {
      assert AdmitsShard(matchers[i], target, total, i);
    }
  }

  /** Every non-empty namespace in scope belongs to exactly one StatefulSet replica, and no other to any. */
  lemma ExactlyOneReplica(target: string, total: int, base: string, ns: string)
    requires 2 <= total <= MAX_INT64 && Divides(total)
    ensures forall i: nat :: i < total ==> Replica(target, total, base, i).Ok?
    ensures forall i: nat, j: nat ::
      (&& i < total && j < total
       && Replica(target, total, base, i).value.matcher(ns)
       && Replica(target, total, base, j).value.matcher(ns)) ==> i == j
    ensures (target == "" || ns == target) && ns != "" <==>
      exists i: nat :: i < total && Replica(target, total, base, i).value.matcher(ns)
  {
    forall i: nat | i < total
      ensures Replica(target, total, base, i).Ok?
      ensures AdmitsShard(Replica(target, total, base, i).value.matcher, target, total, i)
    {
      ReplicaIs(target, total, base, i);
    }
    var matchers := seq(total, i requires 0 <= i < total => Replica(target, total, base, i).value.matcher);
    ExactlyOneMatcher(target, total, matchers, ns);
    if i :| 0 <= i < total && matchers[i](ns) {
      assert Replica(target, total, base, i).value.matcher(ns);
    }
    forall i: nat, j: nat | i < total && j < total && Replica(target, total, base, i).value.matcher(ns)
                            && Replica(target, total, base, j).value.matcher(ns)
      ensures i == j
    {
      assert matchers[i](ns) && matchers[j](ns);
    }
  }

  /** The same for replicas started with the indices 0 to total - 1, on whatever hosts. */
  lemma ExactlyOneConfigured(target: string, total: int, hostnames: seq<Result<string>>, ns: string)
    requires 2 <= total && Divides(total) && |hostnames| == total
    ensures forall i: nat :: i < total ==> BuildNamespaceMatcher(target, total, i, hostnames[i]).Ok?
    ensures forall i: nat, j: nat ::
      (&& i < total && j < total
       && BuildNamespaceMatcher(target, total, i, hostnames[i]).value.matcher(ns)
       && BuildNamespaceMatcher(target, total, j, hostnames[j]).value.matcher(ns)) ==> i == j
    ensures (target == "" || ns == target) && ns != "" <==>
      exists i: nat :: i < total && BuildNamespaceMatcher(target, total, i, hostnames[i]).value.matcher(ns)
  {
    forall i: nat | i < total
      ensures BuildNamespaceMatcher(target, total, i, hostnames[i]).Ok?
      ensures AdmitsShard(BuildNamespaceMatcher(target, total, i, hostnames[i]).value.matcher, target, total, i)
    {
      ConfiguredReplicaIs(target, total, i, hostnames[i]);
    }
    var matchers :=
      seq(total, i requires 0 <= i < total => BuildNamespaceMatcher(target, total, i, hostnames[i]).value.matcher);
    ExactlyOneMatcher(target, total, matchers, ns);
    if i :| 0 <= i < total && matchers[i](ns) {
      assert BuildNamespaceMatcher(target, total, i, hostnames[i]).value.matcher(ns);
    }
    forall i: nat, j: nat | i < total && j < total
                            && BuildNamespaceMatcher(target, total, i, hostnames[i]).value.matcher(ns)
                            && BuildNamespaceMatcher(target, total, j, hostnames[j]).value.matcher(ns)
      ensures i == j
    {
      assert matchers[i](ns) && matchers[j](ns);
    }
  }
}
