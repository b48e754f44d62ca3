/** The second FastAPI time-series store, database.py: the same kind of
    module-level dict, but `POST /store/` keys it by the BODY's process id,
    the data points are unvalidated dicts, and the listing has no filter. */
module Database {
  import opened Wrappers
  import opened Records
  import OrderedDict

  /** The module-level `database` and its handlers; `D` is the type of the
      unvalidated data points. */
  class TimeSeriesDatabase<D> {
    var database: OrderedDict.Dict<Record<D>>

    ghost predicate Valid()
      reads this
    {
      OrderedDict.Valid(database)
    }

    constructor ()
      ensures Valid() && database == OrderedDict.Empty()
    {
      database := OrderedDict.Empty();
    }

    /** `POST /store/`: the record under the body's `process_id` is replaced. */
    method Store(tsInput: Input<D>)
      requires Valid()
      modifies this
      ensures Valid()
      ensures database.values == old(database.values)[tsInput.processId := RecordOf(tsInput)]
      ensures database == OrderedDict.Assign(old(database), tsInput.processId, RecordOf(tsInput))
    {
      database := OrderedDict.Assign(database, tsInput.processId, RecordOf(tsInput));
    }

    /** `GET /get_timeseries/{process_id}`: the stored record, or a 500 for
        an absent id. */
    function GetTimeseries(processId: string): (r: Result<View<D>, HttpError>)
      reads this
      ensures r.Failure? <==> processId !in database.values
      ensures r.Failure? ==> r.error == NotFoundAsRaised
      ensures r.Success? ==>
        r.value == View(processId, database.values[processId].data, database.values[processId].anomaly)
    {
      if processId !in database.values then Failure(NotFoundAsRaised)
      else
        var record := database.values[processId];
        Success(View(processId, record.data, record.anomaly))
    }

    /** `GET /list_timeseries/`: one (id, flag) per record, in insertion
        order, with no filtering. */
    function ListTimeseries(): (r: seq<Summary>)
      requires Valid()
      reads this
      ensures |r| == |database.keys|
      ensures forall i :: 0 <= i < |r| ==>
        r[i] == Summary(database.keys[i], database.values[database.keys[i]].anomaly)
    {
      SummariesUnfiltered(database.keys, database.values);
      Listing(database, false)
    }

    /** `PUT /update_timeseries/{process_id}`: only that record's flag
        changes; an absent id is a 500 and nothing changes. */
    method UpdateTimeseries(processId: string, anomaly: bool) returns (r: Result<(), HttpError>)
      requires Valid()
      modifies this
      ensures Valid()
      ensures r.Failure? <==> processId !in old(database.values)
      ensures r.Failure? ==> r.error == NotFoundAsRaised && database == old(database)
      ensures r.Success? ==>
        && database.keys == old(database.keys)
        && database.values == old(database.values)[processId := old(database.values)[processId].(anomaly := anomaly)]
    {
      if processId !in database.values {
        return Failure(NotFoundAsRaised);
      }
      var record := database.values[processId];
      database := OrderedDict.Assign(database, processId, record.(anomaly := anomaly));
      r := Success(());
    }

    /** `DELETE /delete_timeseries/{process_id}`: exactly that key goes; an
        absent id is a 500 and nothing changes. */
    method DeleteTimeseries(processId: string) returns (r: Result<(), HttpError>)
      requires Valid()
      modifies this
      ensures Valid()
      ensures r.Failure? <==> processId !in old(database.values)
      ensures r.Failure? ==> r.error == NotFoundAsRaised && database == old(database)
      ensures r.Success? ==>
        && database.values == old(database.values) - {processId}
        && database == OrderedDict.Remove(old(database), processId)
    {
      if processId !in database.values {
        return Failure(NotFoundAsRaised);
      }
      database := OrderedDict.Remove(database, processId);
      r := Success(());
    }
  }

  /** Storing then getting by the body's id returns what was stored; storing
      again under the same id replaces it and keeps one listing entry. */
  method StoreTwiceThenGet<D>(first: Input<D>, second: Input<D>)
    returns (got: Result<View<D>, HttpError>, listed: seq<Summary>)
    requires first.processId == second.processId
    ensures got == Success(View(second.processId, second.data, StoredAnomaly(second.anomaly)))
    ensures listed == [Summary(second.processId, StoredAnomaly(second.anomaly))]
  {
    var db := new TimeSeriesDatabase<D>();
    db.Store(first);
    db.Store(second);
    got := db.GetTimeseries(second.processId);
    listed := db.ListTimeseries();
  }

  /** Update and delete on an empty store both fail with 500 and leave it
      empty. */
  method MissingIdFails<D>(processId: string)
    returns (updated: Result<(), HttpError>, deleted: Result<(), HttpError>, listed: seq<Summary>)
    ensures updated == Failure(NotFoundAsRaised) && deleted == Failure(NotFoundAsRaised)
    ensures listed == []
  {
    var db := new TimeSeriesDatabase<D>();
    updated := db.UpdateTimeseries(processId, true);
    deleted := db.DeleteTimeseries(processId);
    listed := db.ListTimeseries();
  }
}
