/**
  The recommendation table (backend/internal/repository/recommendation_repository_dynamodb.go):
  ranked post ids per partition ("TRENDING#"+version for the global list, "USER#"+id for
  personal lists), written in chunked batches and read back highest sort key first.
*/
module RecommendationRepository {
  import opened Wrappers
  import opened Keys
  import opened Chunking
  import opened Store

  datatype UserRecommendationItem = UserRecommendationItem(
    pk: string, sk: string, gsi1pk: string, gsi1sk: string,
    postID: string, algorithmVersion: string, generatedAt: string)

  /** The attribute names the item is stored under. */
  const FieldNames: seq<string> := ["PK", "SK", "GSI1PK", "GSI1SK", "PostID", "AlgorithmVersion", "GeneratedAt"]

  function MarshalRecommendation(item: UserRecommendationItem): (raw: RawItem)
    ensures KeyOf(raw) == Key(item.pk, item.sk)
    ensures forall i :: 0 <= i < |FieldNames| ==> FieldNames[i] in raw && raw[FieldNames[i]].S?
  {
    map["PK" := S(item.pk), "SK" := S(item.sk), "GSI1PK" := S(item.gsi1pk), "GSI1SK" := S(item.gsi1sk),
        "PostID" := S(item.postID), "AlgorithmVersion" := S(item.algorithmVersion),
        "GeneratedAt" := S(item.generatedAt)]
  }

  function MarshalAll(items: seq<UserRecommendationItem>): (raws: seq<RawItem>)
    ensures |raws| == |items| && forall i :: 0 <= i < |items| ==> raws[i] == MarshalRecommendation(items[i])
  {
    seq(|items|, i requires 0 <= i < |items| => MarshalRecommendation(items[i]))
  }

  /** A field of the struct can be filled from the item: absent, or a string. */
  predicate FieldFits(raw: RawItem, name: string) {
    name !in raw || raw[name].S?
  }

  /**
    Unmarshalling one item into the struct: every field is read from its attribute
    ("" when absent); an attribute of another type makes the whole item fail.
    Attributes the struct does not name are ignored.
  */
  function DecodeRecommendation(raw: RawItem): (r: Option<UserRecommendationItem>)
    ensures r.Some? <==> forall i :: 0 <= i < |FieldNames| ==> FieldFits(raw, FieldNames[i])
  {
    if forall i :: 0 <= i < |FieldNames| ==> FieldFits(raw, FieldNames[i]) then
      Some(UserRecommendationItem(StringAttr(raw, "PK"), StringAttr(raw, "SK"), StringAttr(raw, "GSI1PK"),
                                  StringAttr(raw, "GSI1SK"), StringAttr(raw, "PostID"),
                                  StringAttr(raw, "AlgorithmVersion"), StringAttr(raw, "GeneratedAt")))
    else
      assert !FieldFits(raw, FieldNames[0]) || !FieldFits(raw, FieldNames[1]) || !FieldFits(raw, FieldNames[2]) ||
             !FieldFits(raw, FieldNames[3]) || !FieldFits(raw, FieldNames[4]) || !FieldFits(raw, FieldNames[5]) ||
             !FieldFits(raw, FieldNames[6]);
      None
  }

  /** Unmarshalling a list of items: all of them, in order, or an error when any one fails. */
  function DecodeAll(raws: seq<RawItem>): (r: Option<seq<UserRecommendationItem>>)
    ensures r.Some? <==> forall i :: 0 <= i < |raws| ==> DecodeRecommendation(raws[i]).Some?
    ensures r.Some? ==> |r.value| == |raws| &&
                        forall i :: 0 <= i < |raws| ==> Some(r.value[i]) == DecodeRecommendation(raws[i])
    decreases |raws|
  {
    if raws == [] then Some([])
    else
      var n := |raws| - 1;
      match DecodeAll(raws[..n])
      case None =>
        assert exists i :: 0 <= i < n && DecodeRecommendation(raws[..n][i]).None?;
        None
      case Some(front) =>
        match DecodeRecommendation(raws[n])
        case None => None
        case Some(last) => Some(front + [last])
  }

  /** Reading back what SaveRecommendations wrote gives the items themselves. */
  lemma DecodeMarshalled(item: UserRecommendationItem)
    ensures DecodeRecommendation(MarshalRecommendation(item)) == Some(item)
  {
  }

  /** A list read back from marshalled items decodes to exactly those items, in order. */
  lemma DecodeAllMarshalled(items: seq<UserRecommendationItem>)
    ensures DecodeAll(MarshalAll(items)) == Some(items)
  {
    var r := DecodeAll(MarshalAll(items));
    forall i | 0 <= i < |items|
      ensures DecodeRecommendation(MarshalAll(items)[i]).Some?
    {
      DecodeMarshalled(items[i]);
    }
    assert r.Some? && |r.value| == |items|;
    forall i | 0 <= i < |items|
      ensures r.value[i] == items[i]
    {
      DecodeMarshalled(items[i]);
    }
    assert r.value == items;
  }

  class DynamoDBRecommendationRepository {
    var rows: map<Key, RawItem>

    constructor ()
      ensures rows == map[]
    {
      rows := map[];
    }

    /**
      SaveRecommendations: marshals every item first (a failure returns before any
      write), then writes them in chunks of at most 25, stopping at the first chunk
      the store rejects. `unmarshalable` are the items whose marshalling fails,
      `failing` the rejected chunks; `batches` are the requests sent.
    */
    method SaveRecommendations(items: seq<UserRecommendationItem>, unmarshalable: set<nat>, failing: set<nat>)
      returns (o: Outcome, ghost batches: seq<seq<RawItem>>)
      modifies this
      ensures items == [] ==> o == Success && batches == [] && rows == old(rows)
      ensures (exists i :: 0 <= i < |items| && i in unmarshalable) ==>
                o == Failure(MarshalFailed) && batches == [] && rows == old(rows)
      ensures (forall i :: 0 <= i < |items| ==> i !in unmarshalable) ==>
                && ChunkedWrite(old(rows), rows, MarshalAll(items), failing, o.Success?, batches)
                && (o.Failure? ==> o.error == BatchWriteFailed)
    {
      batches := [];
      if |items| == 0 {
        return Success, batches;
      }
      var reqs := new RawItem[|items|](_ => map[]);
      for i := 0 to |items|
        invariant rows == old(rows)
        invariant forall j :: 0 <= j < i ==> reqs[j] == MarshalRecommendation(items[j]) && j !in unmarshalable
      {
        if i in unmarshalable {
          return Failure(MarshalFailed), batches;
        }
        reqs[i] := MarshalRecommendation(items[i]);
      }
      assert reqs[..] == MarshalAll(items);
      var after, ok;
      after, ok, batches := WriteInChunks(rows, reqs[..], failing);
      rows := after;
      return if ok then Success else Failure(BatchWriteFailed), batches;
    }

    /**
      The query both readers issue: partition `pk`, highest sort key first, at most
      `limit` items, then one unmarshal of the whole page.
    */
    method QueryPartition(pk: string, limit: int, outage: bool)
      returns (r: Result<seq<UserRecommendationItem>>, ghost keys: seq<Key>)
      ensures outage ==> r == Err(Unavailable)
      ensures !outage && limit < 1 ==> r == Err(InvalidInput)
      ensures !outage && limit >= 1 ==>
                && IsPage(Candidates(rows, pk, "", None), Some(limit as nat), keys)
                && (forall i :: 0 <= i < |keys| ==> keys[i] in rows)
                && (r.Ok? <==> DecodeAll(ItemsAt(rows, keys)).Some?)
                && (r.Ok? ==> r.value == DecodeAll(ItemsAt(rows, keys)).value)
                && (r.Err? ==> r.error == UnmarshalFailed)
    {
      keys := [];
      if outage {
        return Err(Unavailable), keys;
      }
      var q := Query(rows, pk, "", None, Some(limit));
      if q.Err? {
        return Err(q.error), keys;
      }
      keys := q.value.keys;
      var decoded := DecodeAll(ItemsAt(rows, q.value.keys));
      if decoded.None? {
        return Err(UnmarshalFailed), keys;
      }
      return Ok(decoded.value), keys;
    }

    /** GetGlobalTrending: the top of partition "TRENDING#"+algorithmVersion. */
    method GetGlobalTrending(algorithmVersion: string, limit: int, outage: bool)
      returns (r: Result<seq<UserRecommendationItem>>, ghost keys: seq<Key>)
      ensures outage ==> r == Err(Unavailable)
      ensures !outage && limit < 1 ==> r == Err(InvalidInput)
      ensures !outage && limit >= 1 ==>
                && IsPage(Candidates(rows, TrendingTag + algorithmVersion, "", None), Some(limit as nat), keys)
                && (forall i :: 0 <= i < |keys| ==> keys[i] in rows)
                && (r.Ok? <==> DecodeAll(ItemsAt(rows, keys)).Some?)
                && (r.Ok? ==> r.value == DecodeAll(ItemsAt(rows, keys)).value)
    {
      r, keys := QueryPartition(TrendingTag + algorithmVersion, limit, outage);
    }

    /** GetUserRecommendations: the top of partition "USER#"+userID. */
    method GetUserRecommendations(userID: string, limit: int, outage: bool)
      returns (r: Result<seq<UserRecommendationItem>>, ghost keys: seq<Key>)
      ensures outage ==> r == Err(Unavailable)
      ensures !outage && limit < 1 ==> r == Err(InvalidInput)
      ensures !outage && limit >= 1 ==>
                && IsPage(Candidates(rows, UserPartition(userID), "", None), Some(limit as nat), keys)
                && (forall i :: 0 <= i < |keys| ==> keys[i] in rows)
                && (r.Ok? <==> DecodeAll(ItemsAt(rows, keys)).Some?)
                && (r.Ok? ==> r.value == DecodeAll(ItemsAt(rows, keys)).value)
    {
      r, keys := QueryPartition(UserPartition(userID), limit, outage);
    }
  }
}
