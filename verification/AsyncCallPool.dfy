/** The bookkeeping object `AsyncCallManager` of BrowserHost.cpp, and what its operations do to its two sets. */
module AsyncCallPool {

  /** `DataList` and `canceledDataList`, over any kind of call record. */
  datatype Pool<T> = Pool(dataList: set<T>, canceled: set<T>)

  function Insert<T>(p: Pool<T>, t: T): Pool<T> {
    p.(dataList := p.dataList + {t})
  }

  /** Takes `t` out; whoever finds it in the list owns it from then on. */
  function Erase<T>(p: Pool<T>, t: T): Pool<T> {
    p.(dataList := p.dataList - {t})
  }

  function Cancel<T>(p: Pool<T>): Pool<T> {
    p.(canceled := p.canceled + p.dataList)
  }

  function Drained<T>(p: Pool<T>): Pool<T> {
    p.(dataList := {})
  }

  /** `_asyncCallData`. `hasFunc` is whether `func` is still set; `timesRun` counts the calls made through it. */
  class AsyncCallData {
    var hasFunc: bool
    var called: bool
    const uniqId: int
    ghost var timesRun: nat

    constructor (hasFunc: bool, id: int)
      ensures this.hasFunc == hasFunc && !called && uniqId == id && timesRun == 0
    {
      this.hasFunc := hasFunc;
      this.called := false;
      this.uniqId := id;
      this.timesRun := 0;
    }

    /** Runs the function at most once: the pointer is cleared before the call. */
    method Call()
      modifies this
      ensures !hasFunc
      ensures timesRun == old(timesRun) + (if old(hasFunc) then 1 else 0)
      ensures called == (old(called) || old(hasFunc))
    {
      if hasFunc {
        hasFunc := false;
        called := true;
        timesRun := timesRun + 1;
      }
    }
  }

  class AsyncCallManager {
    var lastId: int
    var dataList: set<AsyncCallData>
    var canceledDataList: set<AsyncCallData>
    /** Every record ever made here, and those among them that have been deleted. */
    ghost var made: set<AsyncCallData>
    ghost var freed: set<AsyncCallData>

    ghost function State(): Pool<AsyncCallData>
      reads this
    {
      Pool(dataList, canceledDataList)
    }

    /**
     Whoever is listed has not run; whoever was cancelled is not listed; nothing listed or cancelled has been deleted.
     */
    ghost predicate Valid()
      reads this, made
    {
      && dataList <= made && canceledDataList <= made && freed <= made
      && dataList !! canceledDataList && freed !! dataList && freed !! canceledDataList
      && (forall d :: d in dataList ==> d.timesRun == 0)
      && (forall d :: d in made ==> d.timesRun <= 1 && (d.hasFunc ==> d.timesRun == 0) && d.uniqId <= lastId)
    }

    constructor ()
      ensures Valid() && State() == Pool({}, {}) && made == {} && freed == {}
    {
      lastId := 1;
      dataList, canceledDataList, made, freed := {}, {}, {}, {};
    }

    method MakeCallback(hasFunc: bool) returns (data: AsyncCallData)
      requires Valid()
      modifies this
      ensures Valid() && fresh(data) && State() == Insert(old(State()), data) && dataList == old(dataList) + {data}
      ensures made == old(made) + {data} && freed == old(freed)
      ensures data.hasFunc == hasFunc && data.timesRun == 0
      ensures forall d :: d in old(made) ==> d.uniqId < data.uniqId
    {
      lastId := lastId + 1;
      data := new AsyncCallData(hasFunc, lastId);
      dataList := dataList + {data};
      made := made + {data};
    }

    /** A firing of the browser: only a record that is still listed is run, and it is then deleted. */
    method Call(data: AsyncCallData)
      requires Valid() && data in made && data !in freed
      modifies this, data
      ensures Valid() && made == old(made) && State() == Erase(old(State()), data)
      ensures dataList == old(dataList) - {data} && canceledDataList == old(canceledDataList)
      ensures data in old(dataList) ==>
        data.timesRun == (if old(data.hasFunc) then 1 else 0) && freed == old(freed) + {data}
      ensures data !in old(dataList) ==>
        data.timesRun == old(data.timesRun) && data.hasFunc == old(data.hasFunc) && freed == old(freed)
    {
      if data in dataList {
        dataList := dataList - {data};
        data.Call();
        freed := freed + {data};
      }
    }

    method Remove(data: AsyncCallData)
      requires Valid()
      modifies this
      ensures Valid() && made == old(made) && freed == old(freed) && State() == Erase(old(State()), data)
      ensures dataList == old(dataList) - {data} && canceledDataList == old(canceledDataList)
    {
      dataList := dataList - {data};
    }

    /** Every listed call is made now, and kept until the manager goes away. */
    method Shutdown()
      requires Valid()
      modifies this, dataList
      ensures Valid() && made == old(made) && freed == old(freed)
      ensures State() == Drained(Cancel(old(State())))
      ensures dataList == {} && canceledDataList == old(canceledDataList) + old(dataList)
      ensures forall d :: d in old(dataList) ==> !d.hasFunc && d.timesRun == (if old(d.hasFunc) then 1 else 0)
    {
      ghost var listed := dataList;
      canceledDataList := canceledDataList + dataList;
      var todo := dataList;
      while todo != {}
        invariant todo <= listed == dataList
        invariant canceledDataList == old(canceledDataList) + listed
        invariant made == old(made) && freed == old(freed) && lastId == old(lastId)
        invariant forall d :: d in todo ==> d.hasFunc == old(d.hasFunc) && d.timesRun == 0
        invariant forall d :: d in listed - todo ==> !d.hasFunc && d.timesRun == (if old(d.hasFunc) then 1 else 0)
        invariant forall d :: d in made - listed ==> d.hasFunc == old(d.hasFunc) && d.timesRun == old(d.timesRun)
        decreases todo
      {
        var d :| d in todo;
        d.Call();
        todo := todo - {d};
      }
      dataList := {};
    }

    /** The destructor: the cancelled records are deleted, each of them for the first time. */
    method Destroy()
      requires Valid() && dataList == {}
      modifies this
      ensures freed == old(freed) + old(canceledDataList) && old(freed) !! old(canceledDataList)
    {
      freed := freed + canceledDataList;
    }
  }
}
