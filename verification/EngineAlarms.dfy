/** The derived alarm list: which alarms a refresh shows, and that a second refresh changes nothing. */
module PlcSimAlarms {
  import opened Wrappers
  import opened Contract
  import opened PlcSim

  ghost predicate DistinctKinds(kinds: seq<AlarmKind>) {
    forall i, j :: 0 <= i < j < |kinds| ==> kinds[i].id != kinds[j].id
  }

  /** A refreshed list shows an alarm exactly when its condition holds, with the item carried over. */
  lemma {:induction false} FindRefreshed(cfg: Config, s: State, kinds: seq<AlarmKind>, i: nat)
    requires |cfg.caps| == 3 && DistinctKinds(kinds) && i < |kinds|
    ensures Find(AddAlarms(cfg, s, kinds), kinds[i].id) ==
            if Alarming(cfg, s, kinds[i].id) then Some(AlarmItem(s.points.alarms, kinds[i], s.generatedAt)) else None
    decreases |kinds|
  {
    var n := |kinds| - 1;
    var before := AddAlarms(cfg, s, kinds[..n]);
    var all := AddAlarms(cfg, s, kinds);
    if Alarming(cfg, s, kinds[n].id) {
      assert all[..|all| - 1] == before;
    } else {
      assert all == before;
    }
    if i < n {
      FindRefreshed(cfg, s, kinds[..n], i);
    } else if !Alarming(cfg, s, kinds[n].id) {
      AbsentBefore(cfg, s, kinds[..n], kinds[n].id);
    }
  }

  lemma {:induction false} AbsentBefore(cfg: Config, s: State, kinds: seq<AlarmKind>, id: string)
    requires |cfg.caps| == 3 && forall i :: 0 <= i < |kinds| ==> kinds[i].id != id
    ensures Find(AddAlarms(cfg, s, kinds), id) == None
    ensures forall a :: a in AddAlarms(cfg, s, kinds) ==> a.alarmId != id
    decreases |kinds|
  {
    if kinds != [] {
      var n := |kinds| - 1;
      var all := AddAlarms(cfg, s, kinds);
      AbsentBefore(cfg, s, kinds[..n], id);
      if Alarming(cfg, s, kinds[n].id) {
        assert all[..|all| - 1] == AddAlarms(cfg, s, kinds[..n]);
      } else {
        assert all == AddAlarms(cfg, s, kinds[..n]);
      }
    }
  }

  /** Every alarm of a refreshed list is active and its condition holds. */
  lemma {:induction false} RefreshedAreAlarming(cfg: Config, s: State, kinds: seq<AlarmKind>)
    requires |cfg.caps| == 3
    ensures forall a :: a in AddAlarms(cfg, s, kinds) ==>
      a.active && Alarming(cfg, s, a.alarmId) && exists i :: 0 <= i < |kinds| && kinds[i].id == a.alarmId
    decreases |kinds|
  {
    if kinds != [] {
      var n := |kinds| - 1;
      RefreshedAreAlarming(cfg, s, kinds[..n]);
      forall a | a in AddAlarms(cfg, s, kinds)
        ensures a.active && Alarming(cfg, s, a.alarmId) && exists i :: 0 <= i < |kinds| && kinds[i].id == a.alarmId
      {
        if a in AddAlarms(cfg, s, kinds[..n]) {
          var i :| 0 <= i < n && kinds[..n][i].id == a.alarmId;
          assert kinds[i].id == a.alarmId;
        } else {
          assert kinds[n].id == a.alarmId;
        }
      }
    }
  }

  lemma KindsAreDistinct()
    ensures DistinctKinds(ALARM_KINDS)
  {
    assert forall i :: 0 <= i < 5 ==> ALARM_KINDS[i].id == ["9001", "9002", "1001", "2001", "9999"][i];
  }

  lemma ConditionsSurvive(cfg: Config, s: State, id: string)
    requires |cfg.caps| == 3
    ensures Alarming(cfg, RefreshDerived(cfg, s), id) == Alarming(cfg, s, id)
  {
  }

  lemma {:induction false} RefreshTwice(cfg: Config, s: State, kinds: seq<AlarmKind>)
    requires |cfg.caps| == 3 && kinds <= ALARM_KINDS
    ensures AddAlarms(cfg, RefreshDerived(cfg, s), kinds) == AddAlarms(cfg, s, kinds)
    decreases |kinds|
  {
    if kinds != [] {
      var n := |kinds| - 1;
      RefreshTwice(cfg, s, kinds[..n]);
      assert kinds[n] == ALARM_KINDS[n];
      ConditionsSurvive(cfg, s, kinds[n].id);
      KindsAreDistinct();
      FindRefreshed(cfg, s, ALARM_KINDS, n);
    }
  }

  lemma RefreshIsIdempotent(cfg: Config, s: State)
    requires |cfg.caps| == 3
    ensures RefreshDerived(cfg, RefreshDerived(cfg, s)) == RefreshDerived(cfg, s)
  {
    RefreshTwice(cfg, s, ALARM_KINDS);
  }

  /** An active alarm that was acknowledged and whose condition still holds. */
  ghost predicate Quieted(cfg: Config, s: State, id: string)
    requires |cfg.caps| == 3
  {
    var a := Find(s.points.alarms, id);
    a.Some? && a.value.active && a.value.acknowledged && Alarming(cfg, s, id)
  }

  lemma KindOf(cfg: Config, s: State, id: string) returns (i: nat)
    requires |cfg.caps| == 3 && Alarming(cfg, s, id)
    ensures i < |ALARM_KINDS| && ALARM_KINDS[i].id == id
  {
    i := if id == "9001" then 0 else if id == "9002" then 1 else if id == "1001" then 2 else if id == "2001" then 3 else 4;
  }

  /** An acknowledgement lasts across a refresh while the condition lasts. */
  lemma QuietedStays(cfg: Config, s: State, id: string)
    requires |cfg.caps| == 3
    requires Find(s.points.alarms, id).Some? && Find(s.points.alarms, id).value.acknowledged && Alarming(cfg, s, id)
    ensures Quieted(cfg, RefreshDerived(cfg, s), id)
  {
    var i := KindOf(cfg, s, id);
    ConditionsSurvive(cfg, s, id);
    KindsAreDistinct();
    FindRefreshed(cfg, s, ALARM_KINDS, i);
  }

  lemma {:induction false} FindAcknowledged(alarms: seq<Alarm>, id: string)
    requires forall a :: a in alarms ==> a.active
    ensures Find(Acknowledged(alarms, id), id) ==
            if Find(alarms, id).Some? then Some(Find(alarms, id).value.(acknowledged := true)) else None
    ensures Find(alarms, id).None? ==> forall a :: a in alarms ==> a.alarmId != id
    decreases |alarms|
  {
    if alarms != [] {
      var n := |alarms| - 1;
      assert alarms[n] in alarms;
      assert Acknowledged(alarms, id)[..n] == Acknowledged(alarms[..n], id);
      FindAcknowledged(alarms[..n], id);
    }
  }

  ghost predicate IsLast(alarms: seq<Alarm>, id: string, i: int) {
    0 <= i < |alarms| && alarms[i].alarmId == id && forall j :: i < j < |alarms| ==> alarms[j].alarmId != id
  }

  ghost predicate Absent(alarms: seq<Alarm>, id: string) {
    forall i :: 0 <= i < |alarms| ==> alarms[i].alarmId != id
  }

  /** Of several alarms with one id the map keeps the last; there is none exactly when no alarm has the id. */
  lemma {:induction false} FindIsTheLast(alarms: seq<Alarm>, id: string)
    ensures Find(alarms, id).None? <==> Absent(alarms, id)
    ensures Find(alarms, id).Some? ==> exists i :: IsLast(alarms, id, i) && Find(alarms, id).value == alarms[i]
    decreases |alarms|
  {
    if alarms != [] {
      var n := |alarms| - 1;
      if alarms[n].alarmId == id {
        assert IsLast(alarms, id, n);
      } else {
        FindIsTheLast(alarms[..n], id);
        if Find(alarms[..n], id).Some? {
          var i :| IsLast(alarms[..n], id, i) && Find(alarms[..n], id).value == alarms[..n][i];
          assert alarms[..n][i] == alarms[i] && IsLast(alarms, id, i);
        } else {
          assert Absent(alarms, id);
        }
      }
    }
  }
}
