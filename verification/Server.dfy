/** VFVServer: applies the messages a client sends to the datasets the
 *  server keeps open, by name. */
module Server {
  import opened Common
  import opened ClientMessage
  import opened FrameParser
  import opened ClientSocket
  import opened SimpleInfo
  import opened FluidDataset

  /** The payload members onMessage reads, one per message type. The
   *  payload structs themselves are not part of this model: only the
   *  members read here are. */
  datatype ServerPayload =
    | NoPayload
    | IdentTabletInfo(hololensIP: string)
    | DatasetInfo(name: string)
    | RotateInfo(dataset: string, quaternion: Quaternion)
    | ColorInfo(dataset: string, mode: ColorMode, min: Float, max: Float)

  type Datasets = map<string, DatasetState>

  /** ROTATE_DATASET on the map: the named dataset, if open, takes the
   *  quaternion; nothing else changes. */
  function RotateDataset(ds: Datasets, name: string, q: Quaternion): (r: Datasets)
    ensures r.Keys == ds.Keys
    ensures forall k :: k in ds && k != name ==> r[k] == ds[k]
    ensures name in ds ==> r[name].rotation == q && r[name] == ds[name].(rotation := q)
  {
    if name in ds then ds[name := WithRotation(ds[name], q)] else ds
  }

  /** CHANGE_COLOR on the map: the named dataset, if open, takes the mode
   *  and the clamps; nothing else changes. */
  function ChangeColor(ds: Datasets, name: string, mode: ColorMode, min: Float, max: Float): (r: Datasets)
    ensures r.Keys == ds.Keys
    ensures forall k :: k in ds && k != name ==> r[k] == ds[k]
    ensures name in ds ==> r[name] == ds[name].(mode := mode, colorMin := min, colorMax := max)
  {
    if name in ds then ds[name := WithColor(ds[name], mode, min, max)] else ds
  }

  /** std::map::emplace: constructs a dataset under a name not yet used; on
   *  a name in use it does nothing. */
  function Emplace(ds: Datasets, name: string): (r: Datasets)
    ensures name in r && r[name] == if name in ds then ds[name] else Opened(name)
    ensures r.Keys == ds.Keys + {name}
    ensures forall k :: k in ds ==> r[k] == ds[k]
  {
    if name in ds then ds else ds[name := Opened(name)]
  }

  /** ADD_DATASET as written: the emplace runs only when the name is
   *  already open. */
  function AddDatasetAsWritten(ds: Datasets, name: string): Datasets
  {
    if name in ds then Emplace(ds, name) else ds
  }

  /** As written, ADD_DATASET never opens anything: an unknown name stays
   *  unknown, and the map is unchanged in every case. */
  lemma AddDatasetAsWrittenOpensNothing(ds: Datasets, name: string)
    ensures AddDatasetAsWritten(ds, name) == ds
    ensures name !in ds ==> name !in AddDatasetAsWritten(ds, name)
  {
  }

  /** ADD_DATASET as intended: an unknown name is opened with the default
   *  state; a name already open is left as it is. */
  function AddDataset(ds: Datasets, name: string): (r: Datasets)
    ensures name in r && r.Keys == ds.Keys + {name}
    ensures name !in ds ==> r[name] == Opened(name)
    ensures forall k :: k in ds ==> r[k] == ds[k]
  {
    if name !in ds then Emplace(ds, name) else ds
  }

  /** Which ADD_DATASET the switch runs: the code as written, whose check
   *  is inverted, or the evidently intended one. */
  datatype AddVariant = AsWritten | Corrected

  /** The ADD_DATASET case of the switch, in the given variant. */
  function AddCase(add: AddVariant, ds: Datasets, name: string): Datasets
  {
    match add
    case AsWritten => AddDatasetAsWritten(ds, name)
    case Corrected => AddDataset(ds, name)
  }

  /** REMOVE_DATASET: the name is closed; the others are kept. */
  function RemoveDataset(ds: Datasets, name: string): (r: Datasets)
    ensures name !in r && r.Keys == ds.Keys - {name}
    ensures forall k :: k in r ==> r[k] == ds[k]
  {
    ds - {name}
  }

  /** What handling the queued messages works on: the datasets, the
   *  client's identity and bound headset, whether the client was closed,
   *  and the messages still queued. */
  datatype Session = Session(
    datasets: Datasets, identity: Identity, hololensIP: Option<string>,
    closed: bool, pending: seq<Message<ServerPayload>>)

  /** One message of the switch, other than an ADD_DATASET from a client
   *  that is not a tablet, with ADD_DATASET in the variant `add`. A
   *  payload that is not the member its type selects is ignored. */
  function HandleOne(add: AddVariant, onTabletPort: bool, validIP: string -> bool, s: Session, m: Message<ServerPayload>): (r: Session)
    ensures r.pending == s.pending
    ensures s.closed ==> r.closed
    ensures m.msgType != IDENT_TABLET ==> r.identity == s.identity && r.hololensIP == s.hololensIP && r.closed == s.closed
  {
    if m.msgType == IDENT_TABLET && m.payload.IdentTabletInfo? then
      var b := TabletBinding(onTabletPort, s.identity, s.hololensIP, m.payload.hololensIP, validIP(m.payload.hololensIP));
      s.(identity := b.1, hololensIP := b.2, closed := s.closed || !b.0)
    else if m.msgType == ROTATE_DATASET && m.payload.RotateInfo? then
      s.(datasets := RotateDataset(s.datasets, m.payload.dataset, m.payload.quaternion))
    else if m.msgType == CHANGE_COLOR && m.payload.ColorInfo? then
      s.(datasets := ChangeColor(s.datasets, m.payload.dataset, m.payload.mode, m.payload.min, m.payload.max))
    else if m.msgType == ADD_DATASET && m.payload.DatasetInfo? then
      s.(datasets := AddCase(add, s.datasets, m.payload.name))
    else if m.msgType == REMOVE_DATASET && m.payload.DatasetInfo? then
      s.(datasets := RemoveDataset(s.datasets, m.payload.name))
    else s
  }

  /** A request to open a dataset from a client that is not a tablet. */
  predicate Refused(s: Session, m: Message<ServerPayload>)
  {
    m.msgType == ADD_DATASET && s.identity != Tablet
  }

  /** The while(pullMessage) loop: the queued messages, oldest first, until
   *  the queue is empty (false) or an ADD_DATASET from a client that is not
   *  a tablet closes the client and ends the handling (true), leaving the
   *  later messages queued. */
  function Handle(add: AddVariant, onTabletPort: bool, validIP: string -> bool, s: Session): (r: (Session, bool))
    ensures !r.1 ==> r.0.pending == []
    ensures r.1 ==> r.0.closed && |r.0.pending| < |s.pending| && r.0.pending == s.pending[|s.pending| - |r.0.pending|..]
    ensures s.closed ==> r.0.closed
    decreases |s.pending|
  {
    if s.pending == [] then (s, false)
    else
      var m := s.pending[0];
      var s' := s.(pending := s.pending[1..]);
      if Refused(s, m) then (s'.(closed := true), true)
      else Handle(add, onTabletPort, validIP, HandleOne(add, onTabletPort, validIP, s', m))
  }

  /** Handling one message does not look at the queue. */
  lemma HandleOneQueue(add: AddVariant, onTabletPort: bool, validIP: string -> bool, s: Session, m: Message<ServerPayload>, q: seq<Message<ServerPayload>>)
    ensures HandleOne(add, onTabletPort, validIP, s.(pending := q), m) == HandleOne(add, onTabletPort, validIP, s, m).(pending := q)
  {
  }

  /** Messages are handled in the order they were queued: handling a
   *  queue is handling its first part, then, unless that stopped, the
   *  rest. */
  lemma {:induction false} HandleAppend(add: AddVariant, onTabletPort: bool, validIP: string -> bool, s: Session, a: seq<Message<ServerPayload>>, b: seq<Message<ServerPayload>>)
    ensures var h := Handle(add, onTabletPort, validIP, s.(pending := a));
            Handle(add, onTabletPort, validIP, s.(pending := a + b))
              == if h.1 then (h.0.(pending := h.0.pending + b), true)
                 else Handle(add, onTabletPort, validIP, h.0.(pending := b))
    decreases |a|
  {
    if a == [] {
      assert a + b == b;
    } else {
      var m := a[0];
      assert (a + b)[0] == m && (a + b)[1..] == a[1..] + b;
      if !Refused(s, m) {
        var s1 := HandleOne(add, onTabletPort, validIP, s.(pending := a[1..]), m);
        HandleAppend(add, onTabletPort, validIP, s1, a[1..], b);
        HandleOneQueue(add, onTabletPort, validIP, s.(pending := a[1..]), m, a[1..] + b);
        assert s.(pending := a[1..]).(pending := a[1..] + b) == s.(pending := a[1..] + b);
      }
    }
  }

  /** Only a tablet opens datasets: a client that did not connect on the
   *  tablet port and is not already a tablet never adds a name to the map,
   *  whatever it sends. */
  lemma {:induction false} OnlyTabletsOpen(add: AddVariant, validIP: string -> bool, s: Session)
    requires s.identity != Tablet
    ensures var r := Handle(add, false, validIP, s);
            r.0.datasets.Keys <= s.datasets.Keys && r.0.identity == s.identity
    decreases |s.pending|
  {
    if s.pending != [] {
      var m := s.pending[0];
      var s' := s.(pending := s.pending[1..]);
      if !Refused(s, m) {
        var s1 := HandleOne(add, false, validIP, s', m);
        assert s1.datasets.Keys <= s.datasets.Keys && s1.identity == s.identity;
        OnlyTabletsOpen(add, validIP, s1);
      }
    }
  }

  /** As written, handling a client's messages never opens a dataset,
   *  whoever the client is: ADD_DATASET changes nothing, and the other
   *  cases keep or remove names. */
  lemma {:induction false} HandleAsWrittenOpensNothing(onTabletPort: bool, validIP: string -> bool, s: Session)
    ensures Handle(AsWritten, onTabletPort, validIP, s).0.datasets.Keys <= s.datasets.Keys
    decreases |s.pending|
  {
    if s.pending != [] {
      var m := s.pending[0];
      var s' := s.(pending := s.pending[1..]);
      if !Refused(s, m) {
        var s1 := HandleOne(AsWritten, onTabletPort, validIP, s', m);
        AddDatasetAsWrittenOpensNothing(s'.datasets, if m.payload.DatasetInfo? then m.payload.name else []);
        assert s1.datasets.Keys <= s.datasets.Keys;
        HandleAsWrittenOpensNothing(onTabletPort, validIP, s1);
      }
    }
  }

  /** A tablet's ADD_DATASET for a name leaves that name open exactly when
   *  the switch is the corrected one or the name was already open. */
  lemma TabletAddDataset(add: AddVariant, onTabletPort: bool, validIP: string -> bool, s: Session, name: string)
    requires s.identity == Tablet && s.pending == [Message(ADD_DATASET, DatasetInfo(name))]
    ensures var r := Handle(add, onTabletPort, validIP, s);
            !r.1 && (name in r.0.datasets <==> add == Corrected || name in s.datasets)
  {
  }

  class VFVServer {
    /** m_datasets: the open datasets by name. */
    var datasets: map<string, FluidDataset>
    /** inet_pton's verdict on a headset address. */
    const validIP: string -> bool
    /** Whether ADD_DATASET runs as written or corrected. */
    const addCase: AddVariant
    /** The open datasets as values. */
    ghost var contents: Datasets

    /** Each dataset is stored under its own name, and `contents` is what
     *  they hold. */
    ghost predicate Valid()
      reads this, datasets.Values
    {
      && (forall k :: k in datasets ==> datasets[k].Valid() && datasets[k].name == k)
      && contents.Keys == datasets.Keys
      && (forall k :: k in datasets ==> contents[k] == datasets[k].State())
    }

    constructor (validIP: string -> bool, addCase: AddVariant)
      ensures Valid() && contents == map[] && this.validIP == validIP && this.addCase == addCase
    {
      datasets := map[];
      this.validIP := validIP;
      this.addCase := addCase;
      contents := map[];
    }

    /** Every dataset object is one the server held before, or a new one. */
    twostate predicate Grown()
      reads this
    {
      forall d :: d in datasets.Values ==> d in old(datasets.Values) || fresh(d)
    }

    method RotateStep(name: string, q: Quaternion)
      requires Valid()
      modifies this, datasets.Values
      ensures Valid() && datasets == old(datasets)
      ensures contents == RotateDataset(old(contents), name, q)
    {
      if name in datasets {
        datasets[name].SetRotation(q);
        contents := RotateDataset(contents, name, q);
        forall k | k in datasets
          ensures contents[k] == datasets[k].State()
        {
          if k != name {
            assert datasets[k] != datasets[name];
          }
        }
      }
    }

    method ColorStep(name: string, mode: ColorMode, min: Float, max: Float)
      requires Valid()
      modifies this, datasets.Values
      ensures Valid() && datasets == old(datasets)
      ensures contents == ChangeColor(old(contents), name, mode, min, max)
    {
      if name in datasets {
        datasets[name].SetColor(mode, min, max);
        contents := ChangeColor(contents, name, mode, min, max);
        forall k | k in datasets
          ensures contents[k] == datasets[k].State()
        {
          if k != name {
            assert datasets[k] != datasets[name];
          }
        }
      }
    }

    /** ADD_DATASET: emplace when the name is in the map (as written) or
     *  when it is not (corrected). */
    method AddStep(name: string)
      requires Valid()
      modifies this
      ensures Valid() && Grown()
      ensures contents == AddCase(addCase, old(contents), name)
    {
      if (name in datasets) == (addCase == AsWritten) {
        EmplaceStep(name);
      }
    }

    /** std::map::emplace: a new dataset object under a name not yet used;
     *  nothing on a name in use. */
    method EmplaceStep(name: string)
      requires Valid()
      modifies this
      ensures Valid() && Grown()
      ensures contents == Emplace(old(contents), name)
    {
      if name !in datasets {
        var fd := new FluidDataset(name);
        datasets := datasets[name := fd];
        contents := Emplace(contents, name);
        forall d | d in datasets.Values
          ensures d in old(datasets.Values) || fresh(d)
        {
          var k :| k in datasets && datasets[k] == d;
        }
      }
    }

    method RemoveStep(name: string)
      requires Valid()
      modifies this
      ensures Valid() && datasets == old(datasets) - {name}
      ensures contents == RemoveDataset(old(contents), name)
    {
      datasets := datasets - {name};
      contents := RemoveDataset(contents, name);
    }

    /** The session as it stands: the datasets, the client's identity, its
     *  bound headset and queue, and whether the client has been closed. */
    ghost function Current(client: VFVClientSocket<ServerPayload>, closed: bool): Session
      reads this, client
    {
      Session(contents, client.identityType, client.hololensIP, closed, client.messages)
    }

    /** One case of the switch, for a message other than an ADD_DATASET
     *  from a client that is not a tablet. Returns whether the client has
     *  been closed, given whether it was before. */
    method HandleMessage(client: VFVClientSocket<ServerPayload>, m: Message<ServerPayload>, closed: bool) returns (closedAfter: bool)
      requires Valid() && client.Valid()
      modifies this, datasets.Values, client
      ensures Valid() && Grown()
      ensures Current(client, closedAfter) == HandleOne(addCase, client.onTabletPort, validIP, old(Current(client, closed)), m)
      ensures client.Valid() && client.State() == old(client.State())
    {
      closedAfter := closed;
      if m.msgType == IDENT_TABLET && m.payload.IdentTabletInfo? {
        var ok := client.SetAsTablet(m.payload.hololensIP, validIP(m.payload.hololensIP));
        if !ok {
          closedAfter := true;
        }
      } else if m.msgType == ROTATE_DATASET && m.payload.RotateInfo? {
        RotateStep(m.payload.dataset, m.payload.quaternion);
      } else if m.msgType == CHANGE_COLOR && m.payload.ColorInfo? {
        ColorStep(m.payload.dataset, m.payload.mode, m.payload.min, m.payload.max);
      } else if m.msgType == ADD_DATASET && m.payload.DatasetInfo? {
        AddStep(m.payload.name);
      } else if m.msgType == REMOVE_DATASET && m.payload.DatasetInfo? {
        RemoveStep(m.payload.name);
      }
    }

    /** One turn of the while(pullMessage) loop: pull the oldest message
     *  (`more`: there was one) and handle it; `stop`: it was an
     *  ADD_DATASET from a client that is not a tablet, which closes the
     *  client and ends the loop. */
    method PullStep(client: VFVClientSocket<ServerPayload>, msg: Message<ServerPayload>, closed: bool)
      returns (more: bool, stop: bool, closedAfter: bool, pulled: Message<ServerPayload>)
      requires Valid() && client.Valid()
      modifies this, datasets.Values, client
      ensures Valid() && client.Valid() && Grown()
      ensures client.State() == old(client.State()).(queue := client.messages)
      ensures more == (old(client.messages) != [])
      ensures !more ==> !stop && Current(client, closedAfter) == old(Current(client, closed))
      ensures more ==> |client.messages| < |old(client.messages)|
      ensures more ==>
                (Handle(addCase, client.onTabletPort, validIP, old(Current(client, closed)))
                 == if stop then (Current(client, closedAfter), true)
                    else Handle(addCase, client.onTabletPort, validIP, Current(client, closedAfter)))
    {
      ghost var s := Current(client, closed);
      closedAfter := closed;
      stop := false;
      more, pulled := client.PullMessage(msg);
      if more {
        assert Current(client, closed) == s.(pending := s.pending[1..]);
        if pulled.msgType == ADD_DATASET && !client.IsTablet() {
          stop, closedAfter := true, true;
        } else {
          closedAfter := HandleMessage(client, pulled, closed);
        }
      }
    }

    /** The while(pullMessage) loop of onMessage. Returns whether the
     *  client has been closed, given whether it was before. */
    method HandleQueue(client: VFVClientSocket<ServerPayload>, closed: bool) returns (closedAfter: bool)
      requires Valid() && client.Valid()
      modifies this, datasets.Values, client
      ensures Valid() && client.Valid()
      ensures Current(client, closedAfter) == Handle(addCase, client.onTabletPort, validIP, old(Current(client, closed))).0
      ensures client.State() == old(client.State()).(queue := client.messages)
    {
      closedAfter := closed;
      var msg := NewMessage(NoPayload);
      while true
        invariant Valid() && client.Valid() && Grown()
        invariant client.State() == old(client.State()).(queue := client.messages)
        invariant Handle(addCase, client.onTabletPort, validIP, old(Current(client, closed)))
               == Handle(addCase, client.onTabletPort, validIP, Current(client, closedAfter))
        decreases |client.messages|
      {
        var more, stop;
        more, stop, closedAfter, msg := PullStep(client, msg, closedAfter);
        if !more || stop {
          return;
        }
      }
    }

    /** onMessage: feed the bytes received to the client, closing it if
     *  that fails; then handle the messages it queued, oldest first. An
     *  ADD_DATASET from a client that is not a tablet closes it and ends the
     *  handling; a refused setAsTablet closes it but the handling goes on.
     *  Returns whether closeClient was called. */
    method OnMessage(client: VFVClientSocket<ServerPayload>, data: seq<byte>) returns (closed: bool)
      requires Valid() && client.Valid()
      modifies this, datasets.Values, client
      modifies client.uint32Buffer, client.uint16Buffer, client.floatBuffer, client.stringBuffer
      ensures Valid()
      ensures var r := Run(client.protocol, old(client.State()), data);
              if !r.0 then
                closed && Current(client, closed) == old(Current(client, true)).(pending := r.1.queue) && client.State() == r.1
              else
                && Current(client, closed) == Handle(addCase, client.onTabletPort, validIP, old(Current(client, false)).(pending := r.1.queue)).0
                && client.State() == r.1.(queue := client.messages)
    {
      var ok := client.FeedMessage(data);
      if !ok {
        return true;
      }
      closed := HandleQueue(client, false);
    }
  }
}
