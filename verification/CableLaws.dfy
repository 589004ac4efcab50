/** What the properties reported by udev make of the cable state, in terms of the four property values alone,
    and when it takes effect (src/usb_moded-udev.c). */
module CableLaws {
  import opened Basics
  import opened Cable

  /** The gadget is enumerated by a pc. */
  predicate GadgetInUse(p: Props) {
    p.android.Some? && p.android != Some("DISCONNECTED")
  }

  predicate SaysOnline(p: Props) {
    p.online == Some("1") || p.extcon == Some("USB=1") || GadgetInUse(p)
  }

  /** Nothing but the kind of power supply is known. */
  predicate OnlyKind(p: Props) {
    p.android.None? && p.extcon != Some("USB=0") && p.extcon != Some("USB=1")
  }

  predicate SaysPc(p: Props, current: CableState) {
    SaysOnline(p) &&
    (GadgetInUse(p)
     || (p.android.None? && p.extcon == Some("USB=1"))
     || (OnlyKind(p) && (p.kind.None? || p.kind == Some("USB") || p.kind == Some("USB_CDP")
                         || (p.kind == Some("USB_PD") && current != ChargerConnected))))
  }

  predicate SaysCharger(p: Props) {
    SaysOnline(p) &&
    (p.android == Some("DISCONNECTED")
     || (p.android.None? && p.extcon == Some("USB=0"))
     || (OnlyKind(p) && (p.kind == Some("USB_DCP") || p.kind == Some("USB_HVDCP") || p.kind == Some("USB_HVDCP_3")
                         || p.kind == Some("USB_FLOAT"))))
  }

  /** A charger that now negotiates power delivery stays a charger. */
  predicate SaysNothingNew(p: Props, current: CableState) {
    SaysOnline(p) && OnlyKind(p) && p.kind == Some("USB_PD") && current == ChargerConnected
  }

  lemma OnlineExactly(p: Props)
    ensures Online(p) <==> SaysOnline(p)
  {
  }

  lemma KindExactly(p: Props)
    ensures Kind(p) == if GadgetInUse(p) then Some("USB")
                       else if p.android.Some? then Some("USB_DCP")
                       else if p.extcon == Some("USB=1") then Some("USB")
                       else if p.extcon == Some("USB=0") then Some("USB_DCP")
                       else p.kind
  {
    assert "USB=1"[4] != "USB=0"[4];
  }

  lemma KindsDiffer()
    ensures "USB_DCP" != "USB" && "USB_DCP" != "USB_CDP"
    ensures "USB_HVDCP" != "USB" && "USB_HVDCP" != "USB_CDP" && "USB_HVDCP_3" != "USB" && "USB_HVDCP_3" != "USB_CDP"
    ensures "USB_PD" !in ["USB", "USB_CDP", "USB_DCP", "USB_HVDCP", "USB_HVDCP_3", "USB_FLOAT"]
    ensures "USB_FLOAT" !in ["USB", "USB_CDP", "USB_DCP", "USB_HVDCP", "USB_HVDCP_3"]
  {
    assert |"USB"| == 3 && |"USB_PD"| == 6 && |"USB_CDP"| == |"USB_DCP"| == 7 && |"USB_HVDCP"| == |"USB_FLOAT"| == 9 && |"USB_HVDCP_3"| == 11;
    assert "USB_CDP"[4] != "USB_DCP"[4] && "USB_HVDCP"[4] != "USB_FLOAT"[4];
  }

  /** Exactly what is concluded from which property values. */
  lemma PropsDecide(p: Props, current: CableState)
    ensures Meaning(p, current) == Some(PcConnected) <==> SaysPc(p, current)
    ensures Meaning(p, current) == Some(ChargerConnected) <==> SaysCharger(p)
    ensures Meaning(p, current) == None <==> SaysNothingNew(p, current)
    ensures Meaning(p, current) == Some(Disconnected) <==>
            !SaysPc(p, current) && !SaysCharger(p) && !SaysNothingNew(p, current)
  {
    OnlineExactly(p);
    KindExactly(p);
    KindsDiffer();
  }

  /** Suspend is blocked anew exactly when the properties contradict what the control code was told last. */
  lemma SuspendExactly(s: State, p: Props)
    ensures var r := Take(s, Evaluate(p));
            var news := SaysOnline(p) != (s.controlCable == PcConnected || s.controlCable == ChargerConnected);
            && r.suspendUntil == (if news then Some(s.now + 5000) else s.suspendUntil)
            && r.wakelock == (if news then Some(s.now + 10000) else s.wakelock)
  {
    OnlineExactly(p);
  }

  /** Exactly when a new conclusion is going to take effect: a disconnect at once, a pc after the configured
      delay unless it is the first thing reported, all else after 100 ms; a timer that is running with the same
      delay keeps its deadline. */
  lemma DelayExactly(s: State, p: Props, c: CableState)
    requires Meaning(p, s.current) == Some(c) && c != s.current
    ensures var r := Take(s, Evaluate(p));
            var delay := if c == PcConnected && s.current != Unknown && s.connectionDelay > 100 then s.connectionDelay else 100;
            && r.current == c
            && (c == Disconnected ==> r.active == Disconnected && r.timer.None?)
            && (c != Disconnected ==>
                  && r.active == s.active && r.timer.Some? && r.timer.value.delay == delay
                  && r.timer.value.deadline ==
                     if s.timer.Some? && s.timer.value.delay == delay then s.timer.value.deadline else s.now + delay)
  {
  }

  /** Being told the same again, or nothing new, leaves alone what is reported and acted on, and a running timer. */
  lemma NothingNewExactly(s: State, p: Props)
    requires Meaning(p, s.current).None? || Meaning(p, s.current) == Some(s.current)
    ensures Take(s, Evaluate(p)) == s.(suspendUntil := Take(s, Evaluate(p)).suspendUntil, wakelock := Take(s, Evaluate(p)).wakelock)
  {
  }

  predicate NoReports(steps: seq<Step>) {
    forall i :: 0 <= i < |steps| ==> !steps[i].Evaluate?
  }

  /** Until something else is reported, the reported state stays, and becomes the active one when the timer
      that is running is due. */
  lemma {:induction false} TimeBringsItAbout(s: State, steps: seq<Step>)
    requires Inv(s) && IsRun(s, steps) && NoReports(steps)
    ensures var r := After(s, steps);
            && r.current == s.current
            && (r.active == s.current || (r.active == s.active && s.timer.Some? && r.timer == s.timer && r.now <= s.timer.value.deadline))
    decreases steps
  {
    if |steps| > 0 {
      StepKeepsInv(s, steps[0]);
      TimeBringsItAbout(Take(s, steps[0]), steps[1..]);
    }
  }

  /** From property values to the active state, over all runs: once the values say so and the delay is over,
      the daemon acts on a pc, a charger or a disconnect, whatever it acted on before. */
  lemma EvaluationIsActedOn(s: State, p: Props, steps: seq<Step>)
    requires Reachable(s) && IsRun(Take(s, Evaluate(p)), steps) && NoReports(steps)
    ensures var r := After(Take(s, Evaluate(p)), steps);
            var over := Take(s, Evaluate(p)).timer.None? || r.now > Take(s, Evaluate(p)).timer.value.deadline;
            && (SaysPc(p, s.current) && over ==> r.active == PcConnected)
            && (SaysCharger(p) && over ==> r.active == ChargerConnected)
            && (!SaysPc(p, s.current) && !SaysCharger(p) && !SaysNothingNew(p, s.current) ==> r.active == Disconnected)
  {
    ReachableKeepsInv(s);
    StepKeepsInv(s, Evaluate(p));
    PropsDecide(p, s.current);
    var t := Take(s, Evaluate(p));
    assert Meaning(p, s.current).Some? ==> t.current == Meaning(p, s.current).value;
    TimeBringsItAbout(t, steps);
  }
}
