/** The transition rules on a Bundle's spec, and what every run of admitted updates keeps. */
module BundleSpec {
  import opened GoStrings

  /** Optional fields by their content; absent and empty are different. */
  datatype Spec = Spec(kind: string, pipeline: string, images: Option<string>, chart: Option<string>,
                       configRef: Option<string>,
                       provenance: Option<string>, intent: Option<string>, actor: Option<string>,
                       rejected: Option<string>)

  /** The form of the immutability rules: present in both or in neither, and then equal. */
  predicate Immutable(now: Option<string>, before: Option<string>) {
    now.Some? == before.Some? && (!now.Some? || now == before)
  }

  predicate RejectedKept(now: Spec, before: Spec) {
    !before.rejected.Some? || now.rejected.Some?
  }

  predicate RejectedFixed(now: Spec, before: Spec) {
    !before.rejected.Some? || !now.rejected.Some? || now.rejected == before.rejected
  }

  /** The rules that look at one spec only: no configRef on an image or chart Bundle. */
  predicate Coherent(s: Spec) {
    !(s.kind == "image" && s.configRef.Some?) && !(s.kind == "chart" && s.configRef.Some?)
  }

  predicate Admitted(now: Spec, before: Spec) {
    && now.kind == before.kind && now.pipeline == before.pipeline
    && Immutable(now.images, before.images) && Immutable(now.chart, before.chart)
    && Immutable(now.configRef, before.configRef) && Immutable(now.provenance, before.provenance)
    && Immutable(now.intent, before.intent)
    && Coherent(now)
    && Immutable(now.actor, before.actor)
    && RejectedKept(now, before) && RejectedFixed(now, before)
  }

  /** All the rules together: nothing changes, except that a rejection may be set once. */
  lemma AdmittedExactly(now: Spec, before: Spec)
    ensures Admitted(now, before)
       <==> && !(now.kind in {"image", "chart"} && now.configRef.Some?)
            && (now == before || (before.rejected == None && now == before.(rejected := now.rejected)))
  {
  }

  /** Updates compose, and a spec may be written again as it is exactly when it is no image or chart
      Bundle with a configRef. */
  lemma AdmittedOrder(a: Spec, b: Spec, c: Spec)
    ensures Admitted(a, a) <==> !(a.kind in {"image", "chart"} && a.configRef.Some?)
    ensures Admitted(b, a) && Admitted(c, b) ==> Admitted(c, a)
    ensures Admitted(b, a) && Admitted(a, b) ==> a == b
  {
  }

  ghost predicate Run(specs: seq<Spec>) {
    forall i :: 0 < i < |specs| ==> Admitted(specs[i], specs[i - 1])
  }

  /** Along every run of admitted updates a Bundle's spec takes at most two values, in order, and
      the second is the first with a rejection set. */
  lemma {:induction false} AtMostTwoValues(specs: seq<Spec>) returns (turn: nat)
    requires specs != [] && Run(specs)
    ensures 0 < turn <= |specs|
    ensures forall i :: 0 <= i < turn ==> specs[i] == specs[0]
    ensures forall i :: turn <= i < |specs| ==> specs[i] == specs[turn]
    ensures turn < |specs| ==> specs[0].rejected == None && specs[turn].rejected.Some?
                               && specs[turn] == specs[0].(rejected := specs[turn].rejected)
  {
    if |specs| == 1 {
      turn := 1;
    } else {
      var n := |specs| - 1;
      turn := AtMostTwoValues(specs[..n]);
      AdmittedExactly(specs[n], specs[n - 1]);
      if turn == n && specs[n] == specs[0] {
        turn := n + 1;
      }
    }
  }

  /** Once `rejected` is set, no admitted update changes the spec. */
  lemma RejectionIsFinal(specs: seq<Spec>, i: nat, j: nat)
    requires Run(specs) && i <= j < |specs| && specs[i].rejected.Some?
    ensures specs[j] == specs[i]
  {
    var turn := AtMostTwoValues(specs);
  }
}
