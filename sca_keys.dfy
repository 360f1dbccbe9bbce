/** The keys under which getmonSCA of src/daq_monitor.cpp reports the slow-control
  * status, and the fact that keeps them apart: their twelfth characters differ. */
module ScaKeys {

  const READY_KEY: string := "SCA.STATUS.READY"
  const CRITICAL_KEY: string := "SCA.STATUS.CRITICAL_ERROR"
  /** The counters' keys are this prefix followed by the link number. */
  const COUNTER_KEY: string := "SCA.STATUS.NOT_READY_CNT_OH"

  lemma StatusKeysApart()
    ensures 11 < |READY_KEY| && 11 < |CRITICAL_KEY| && 11 < |COUNTER_KEY|
    ensures COUNTER_KEY[11] != READY_KEY[11] && COUNTER_KEY[11] != CRITICAL_KEY[11]
    ensures READY_KEY != CRITICAL_KEY
  {
    assert READY_KEY[11] == 'R' && CRITICAL_KEY[11] == 'C' && COUNTER_KEY[11] == 'N';
  }
}
