/** The sanitizers of `Refs` are lawful rules for batch execution, so its
    theorems hold for the identifiers and texts Core really accepts. */
module BatchRules {
  import opened Text
  import Refs
  import opened Batch

  function CoreRules(): Rules {
    Rules(
      s => Refs.NonEmpty(s),
      s => Refs.Sanitized(s),
      s => Refs.PublicString(s),
      (operation, s) => Refs.TargetRef(operation, s),
      s => Refs.ProviderPath(s))
  }

  lemma PrefixesAreAccepted(s: string)
    requires s in CORE_PREFIXES
    ensures Refs.Sanitized(s)
  {
    hide Refs.Sanitized;
    Refs.ResumePrefix();
    Refs.DatasetPrefix();
    Refs.AuditPrefix();
    Refs.BatchPrefix();
    Refs.EvidencePrefix();
  }

  lemma StopCodesAreAccepted(s: string)
    requires s in STOP_BOUNDARY_CODES
    ensures Refs.Sanitized(s)
  {
    hide Refs.Sanitized;
    Refs.ExecutionTimeoutCode();
    Refs.ExecutionCancelledCode();
    Refs.TaskCancelledCode();
    Refs.CancelledCode();
  }

  lemma ReferenceCodesArePublic(s: string)
    requires s in {"invalid_field", "unsafe_ref", "unsafe_public_payload", "invalid_timestamp"}
    ensures Refs.PublicString(s)
  {
    hide Refs.PublicString;
    assert Refs.CodeText(s);
    Refs.CodeIsPublic(s);
  }

  lemma TraceCodesArePublic(s: string)
    requires s in {"unsafe_source_trace", "unsafe_provider_path", "source_trace_boundary_mismatch"}
    ensures Refs.PublicString(s)
  {
    hide Refs.PublicString;
    assert Refs.CodeText(s);
    Refs.CodeIsPublic(s);
  }

  lemma OutcomeCodesArePublic(s: string)
    requires s in {"invalid_target_operation", "invalid_item_outcome", "invalid_item_outcome_status"}
    ensures Refs.PublicString(s)
  {
    hide Refs.PublicString;
    assert Refs.CodeText(s);
    Refs.CodeIsPublic(s);
  }

  lemma ReasonsArePublic(s: string)
    requires s in {"unsafe_item_outcome", "duplicate_dedup_key", "dataset_record_written"}
    ensures Refs.PublicString(s)
  {
    hide Refs.PublicString;
    assert Refs.CodeText(s);
    Refs.CodeIsPublic(s);
  }

  lemma WordsArePublic(s: string)
    requires s in CORE_WORDS
    ensures Refs.PublicString(s)
  {
    hide Refs.PublicString;
    if s in {"invalid_field", "unsafe_ref", "unsafe_public_payload", "invalid_timestamp"} {
      ReferenceCodesArePublic(s);
    } else if s in {"unsafe_source_trace", "unsafe_provider_path", "source_trace_boundary_mismatch"} {
      TraceCodesArePublic(s);
    } else if s in {"invalid_target_operation", "invalid_item_outcome", "invalid_item_outcome_status"} {
      OutcomeCodesArePublic(s);
    } else {
      ReasonsArePublic(s);
    }
  }

  /** Joining keeps references acceptable, accepted references are public texts,
      and every word Core writes itself passes its own sanitizers. */
  lemma CoreRulesAreLawful()
    ensures Lawful(CoreRules())
  {
    hide Refs.NonEmpty, Refs.Sanitized, Refs.PublicString, Refs.TargetRef, Refs.ProviderPath;
    var rules := CoreRules();
    forall s | rules.ref(s)
      ensures rules.nonBlank(s) && rules.text(s) && s != ""
    {
      AcceptedIsPublic(s);
    }
    forall a, b | rules.ref(a) && rules.ref(b)
      ensures rules.ref(Join(a, b))
    {
      Refs.JoinSanitized(a, b);
    }
    forall s | s in CORE_PREFIXES + STOP_BOUNDARY_CODES
      ensures rules.ref(s)
    {
      if s in CORE_PREFIXES {
        PrefixesAreAccepted(s);
      } else {
        StopCodesAreAccepted(s);
      }
    }
    forall n: nat
      ensures rules.ref(Decimal(n))
    {
      Refs.DecimalIsSanitized(n);
    }
    forall s | s in CORE_WORDS
      ensures rules.text(s)
    {
      WordsArePublic(s);
    }
  }

  lemma AcceptedIsPublic(s: string)
    requires Refs.Sanitized(s)
    ensures Refs.NonEmpty(s) && Refs.PublicString(s) && s != ""
  {
    hide Refs.PublicString;
    Refs.SanitizedIsPublic(s);
  }
}
