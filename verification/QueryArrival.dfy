/**
 What a sent query is to its receiver: for each query type, exactly which queries the receiver's parser accepts, and
 which of the fields arrive.
*/
module QueryArrival {
  import opened FixedWidth
  import opened Options
  import opened DescriptorQuery

  /** The types as the wire numbers them. */
  lemma TypeNumbers()
    ensures UNKNOWN == 0 && GET_CAPABILITIES == 2 && GET_TELEMETRY == 3 && PULL_TELEMETRY == 4 && SET_TIME == 7
    ensures GET_SETTINGS == 8 && GET_NODE_BUNDLE == 9 && GET_SETTING == 10 && SET_SETTING == 11 && READ_LOG_CHUNK == 13
    ensures SET_LOG_CONTROL == 15 && LIST_STORAGE_PATH == 17 && STAT_STORAGE_PATH == 18 && GET_OTA_MANIFEST == 21
    ensures CLEAR_OTA_SCOPE == 23 && APPLY_OTA_IMAGE == 26 && TOPOLOGY_STAGE_CLEAR == 27 && TOPOLOGY_STAGE_BEGIN == 28
    ensures TOPOLOGY_STAGE_SLOT_SET == 29 && TOPOLOGY_STAGE_GROUP_SET == 30 && TOPOLOGY_STAGE_FINALIZE == 31
    ensures TOPOLOGY_COMMIT == 32 && TOPOLOGY_TRIGGER_SEND == 34
  {
  }

  /** What the receiver's parser makes of the query. */
  function Arrived(q: Query): Option<Query>
    requires Encode(q).Some?
  {
    Parse(Encode(q).value)
  }

  /** Only settings without exactly one identity, and texts beyond a field's length, cannot be sent. */
  lemma EncodableExactly(q: Query)
    ensures var setting := q.kind == GET_SETTING || q.kind == SET_SETTING;
            Encode(q).Some? <==>
              && (setting ==> (q.setting.hasId <==> q.setting.key == []) && |q.setting.key| <= 0xFFFF)
              && (q.kind == SET_SETTING ==> |q.setting.value| <= 0xFFFF)
              && (q.kind == LIST_STORAGE_PATH || q.kind == STAT_STORAGE_PATH ==> |q.names.storage| <= 0xFFFF)
              && (q.kind == CLEAR_OTA_SCOPE ==> |q.names.scope| <= 0xFFFF)
              && (q.kind == APPLY_OTA_IMAGE ==> |q.names.target| <= 0xFFFF)
  {
  }

  predicate IsConditional(kind: byte) {
    || kind == UNKNOWN || kind == SET_SETTING || kind == SET_TIME || kind == READ_LOG_CHUNK || kind == CLEAR_OTA_SCOPE
    || kind == APPLY_OTA_IMAGE || kind == TOPOLOGY_STAGE_BEGIN || kind == TOPOLOGY_STAGE_SLOT_SET
    || kind == TOPOLOGY_STAGE_GROUP_SET || kind == TOPOLOGY_TRIGGER_SEND
  }

  /** Of the queries that can be encoded, the parser accepts exactly these, type by type. */
  lemma AcceptedExactly(q: Query)
    requires Encode(q).Some?
    ensures !IsConditional(q.kind) ==> Arrived(q).Some?
    ensures q.kind == UNKNOWN ==> Arrived(q) == None
    ensures q.kind == SET_SETTING ==> (Arrived(q).Some? <==> q.setting.value != [])
    ensures q.kind == SET_TIME ==> (Arrived(q).Some? <==> q.epoch % 0x1_0000_0000 != 0)
    ensures q.kind == READ_LOG_CHUNK ==> (Arrived(q).Some? <==> q.log.maxBytes > 0)
    ensures q.kind == CLEAR_OTA_SCOPE ==> (Arrived(q).Some? <==> q.names.scope != [])
    ensures q.kind == APPLY_OTA_IMAGE ==> (Arrived(q).Some? <==> q.names.target != [])
    ensures q.kind == TOPOLOGY_STAGE_BEGIN ==> (Arrived(q).Some? <==> q.begin.version > 0)
    ensures q.kind == TOPOLOGY_STAGE_SLOT_SET ==>
              (Arrived(q).Some? <==>
                 q.slot.index < 13 && (!q.slot.enabled || (q.slot.role > 0 && q.slot.relative != 0 && q.groupId > 0)))
    ensures q.kind == TOPOLOGY_STAGE_GROUP_SET ==>
              (Arrived(q).Some? <==> q.group.slot < 12 && (!q.group.enabled || q.groupId > 0))
    ensures q.kind == TOPOLOGY_TRIGGER_SEND ==>
              (Arrived(q).Some? <==>
                 && (-13 <= q.trigger.target <= -1 || 1 <= q.trigger.target <= 13)
                 && 1 <= q.trigger.direction <= 2 && (q.trigger.sourceVi <= 15 || q.trigger.sourceVi == 255))
  {
    hide Encode, Parse;
    ParseEncoded(q);
    if q.kind == GET_SETTING || q.kind == SET_SETTING {
      EncodableSetting(q);
    }
  }

  lemma EncodableSetting(q: Query)
    requires Encode(q).Some? && (q.kind == GET_SETTING || q.kind == SET_SETTING)
    ensures q.setting.hasId <==> q.setting.key == []
  {
  }

  /** Each field the type uses arrives as sent, but for an epoch beyond 32 bits and unknown bits of a bundle mask. */
  lemma FieldsArrive(q: Query)
    requires Encode(q).Some? && Arrived(q).Some?
    ensures var r := Arrived(q).value;
            && r.kind == q.kind
            && (q.kind == GET_SETTING || q.kind == SET_SETTING ==>
                  && r.setting.key == q.setting.key && r.setting.hasId == q.setting.hasId
                  && (q.setting.hasId ==> r.setting.id == q.setting.id))
            && (q.kind == SET_SETTING ==> r.setting.value == q.setting.value)
            && (q.kind == SET_TIME ==> r.epoch == q.epoch % 0x1_0000_0000)
            && (q.kind == GET_NODE_BUNDLE ==> r.mask == if q.mask % 32 == 0 then 31 else q.mask % 32)
            && (q.kind == READ_LOG_CHUNK ==> r.log.offset == q.log.offset && r.log.maxBytes == q.log.maxBytes)
            && (q.kind == SET_LOG_CONTROL ==> r.log.hasEnable && r.log.enable == q.log.enable)
            && (q.kind == LIST_STORAGE_PATH || q.kind == STAT_STORAGE_PATH ==> r.names.storage == q.names.storage)
            && (q.kind == CLEAR_OTA_SCOPE ==> r.names.scope == q.names.scope)
            && (q.kind == APPLY_OTA_IMAGE ==> r.names.target == q.names.target)
            && (q.kind == TOPOLOGY_STAGE_BEGIN ==> r.begin == q.begin)
            && (q.kind == TOPOLOGY_STAGE_SLOT_SET ==>
                  r.slot == q.slot && r.groupId == q.groupId && r.delays == q.delays)
            && (q.kind == TOPOLOGY_STAGE_GROUP_SET ==>
                  && r.group.slot == q.group.slot && r.group.enabled == q.group.enabled && r.groupId == q.groupId
                  && (q.group.enabled ==> r.group.seed == q.group.seed))
            && (q.kind == TOPOLOGY_TRIGGER_SEND ==> r.trigger == q.trigger && r.delays == q.delays)
  {
    hide Encode, Parse, Valid;
    ParseEncoded(q);
  }

  /** Paging arrives with the types that can be paged, and with no other. */
  lemma PagingArrives(q: Query)
    requires Encode(q).Some? && Arrived(q).Some?
    ensures var r := Arrived(q).value.page;
            var pageable := q.kind in {GET_CAPABILITIES, GET_TELEMETRY, PULL_TELEMETRY, GET_NODE_BUNDLE, GET_SETTINGS,
                                       GET_OTA_MANIFEST};
            && (r.paged <==> q.page.paged && pageable)
            && (r.paged ==> r == q.page)
  {
    hide Encode, Parse, Valid;
    ParseEncoded(q);
  }
}
