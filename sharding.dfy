/**
 * The routing step shared by the sharded services of internal/services:
 * a user uuid picks one database out of `clientShards` through the shard
 * router (assets.go `client` and `Client`, users.go `client`).
 */
module Sharding {
  import opened Shard
  import opened Postgres

  /** The shape both sharded services keep: one router interval per database. */
  ghost predicate Routing(clientShards: seq<PostgreSQLService>, shardsNum: nat, shardService: ShardService)
    reads shardService, shardService.hasher
  {
    shardsNum == |clientShards| && shardService.Valid() && shardService.bucketsNum == shardsNum
  }

  /** `clientShards[GetBucketByIndex(GetBucketIndex(userUuid))]`: always a valid index. */
  method Route(clientShards: seq<PostgreSQLService>, shardService: ShardService, userUuid: string) returns (c: PostgreSQLService)
    requires Routing(clientShards, |clientShards|, shardService)
    modifies shardService.hasher
    ensures Routing(clientShards, |clientShards|, shardService)
    ensures ShardOf(|clientShards|, userUuid) < |clientShards|
    ensures c == clientShards[ShardOf(|clientShards|, userUuid)]
  {
    var bucketIndex := shardService.GetBucketIndex(userUuid);
    var bucket := shardService.GetBucketByIndex(bucketIndex);
    ShardOfInRange(|clientShards|, userUuid);
    c := clientShards[bucket];
  }
}
